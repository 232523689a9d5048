/** What an accepted allowlist can and cannot permit. */
module TargetSafety {
  import opened Wrappers
  import opened Text
  import opened IpBlocks
  import opened AddressText
  import opened TargetPolicy

  // ---- Every accepted network is narrow -----------------------------------------------------

  lemma {:induction false} HexBound(s: string)
    requires HexText(s)
    ensures Hex(s) < Pow2(4 * |s|)
  {
    if s != "" {
      var front := s[..|s| - 1];
      assert s[|s| - 1] in s && HexDigit(s[|s| - 1]).Some?;
      HexBound(front);
      NextPower(4, 4 * |front|);
    }
  }

  lemma NextPower(i: nat, j: nat)
    ensures i == 4 ==> Pow2(j + i) == 16 * Pow2(j)
    ensures i == 16 ==> Pow2(j + i) == 0x1_0000 * Pow2(j)
  {
    assert Pow2(4) == 16;
    SmallPowers();
    Pow2Adds(i, j);
  }

  ghost predicate Hextets(groups: seq<nat>) {
    forall g :: g in groups ==> g < 0x1_0000
  }

  lemma {:induction false} NumberBound(groups: seq<nat>)
    requires Hextets(groups)
    ensures Number(groups) < Pow2(16 * |groups|)
  {
    if groups != [] {
      var front, last := groups[..|groups| - 1], groups[|groups| - 1];
      assert last in groups && forall g :: g in front ==> g in groups;
      NumberBound(front);
      NextPower(16, 16 * |front|);
    }
  }

  lemma PieceBound(part: string)
    ensures PieceOf(part).Hextet? ==> PieceOf(part).n < 0x1_0000
  {
    if PieceOf(part).Hextet? {
      HexBound(part);
      FewDigits(|part|);
      hide Pow2, Hex;
    }
  }

  lemma FewDigits(n: nat)
    requires n <= 4
    ensures Pow2(4 * n) <= 0x1_0000
  {
    SmallPowers();
    Pow2Adds(4 * n, 16 - 4 * n);
    hide Pow2;
    TimesMonotone(1, Pow2(16 - 4 * n), Pow2(4 * n));
  }

  lemma QuadBound(text: string)
    ensures ParseV4(text).Some? ==> ParseV4(text).value < 0x1_0000_0000
  {
  }

  ghost predicate SmallPieces(pieces: seq<Piece>) {
    forall p :: p in pieces && p.Hextet? ==> p.n < 0x1_0000
  }

  lemma PiecesBound(parts: seq<string>)
    requires parts != []
    ensures SmallPieces(AllPieces(parts))
  {
    forall p | p in parts ensures PieceOf(p).Hextet? ==> PieceOf(p).n < 0x1_0000 {
      PieceBound(p);
    }
    QuadBound(parts[|parts| - 1]);
  }

  lemma {:induction false} GroupsBound(pieces: seq<Piece>)
    requires SmallPieces(pieces)
    ensures Groups(pieces).Some? ==> Hextets(Groups(pieces).value)
  {
    if pieces != [] {
      assert pieces[0] in pieces;
      GroupsBound(pieces[1..]);
    }
  }

  lemma ElidedBound(pieces: seq<Piece>, skip: nat)
    requires SmallPieces(pieces) && skip < |pieces|
    ensures var high, low := Side(pieces[..skip]), Side(pieces[skip + 1..]);
            high.Some? && low.Some? && |high.value| + |low.value| <= 7 ==>
              Number(high.value + seq(8 - |high.value| - |low.value|, _ => 0) + low.value) < Pow2(128)
  {
    GroupsBound(pieces[..skip]);
    GroupsBound(pieces[skip + 1..]);
    var high, low := Side(pieces[..skip]), Side(pieces[skip + 1..]);
    if high.Some? && low.Some? && |high.value| + |low.value| <= 7 {
      NumberBound(high.value + seq(8 - |high.value| - |low.value|, _ => 0) + low.value);
    }
  }

  lemma SixBound(text: string)
    ensures ParseV6(text).Some? ==> ParseV6(text).value < Pow2(128)
  {
    hide Split, AllPieces, PiecesOf, Groups, Side, Number, Pow2, Hextets, SmallPieces, FirstElided;
    var parts := Split(text, ':');
    if ParseV6(text).Some? {
      var pieces := AllPieces(parts);
      PiecesBound(parts);
      var skip := FirstElided(pieces, 1);
      if skip.None? {
        GroupsBound(pieces);
        NumberBound(Groups(pieces).value);
      } else {
        ElidedBound(pieces, skip.value);
      }
    }
  }

  lemma FamilyBound(text: string, f: Family)
    ensures ParseFamily(text, f).Some? ==> ParseFamily(text, f).value < Pow2(Width(f))
  {
    QuadBound(text);
    SixBound(text);
    SmallPowers();
  }

  lemma BlockAsBound(text: string, f: Family)
    ensures ParseBlockAs(text, f).Some? ==> ParseBlockAs(text, f).value.base < Pow2(Width(f))
  {
    var b := ParseBlockAs(text, f);
    if b.Some? {
      var head := Split(text, '/')[0];
      FamilyBound(head, f);
      var a := Address(f, ParseFamily(head, f).value);
      MaskIsRange(b.value, a);
    }
  }

  lemma BlockBound(text: string)
    ensures ParseBlock(text).Some? ==> ParseBlock(text).value.base < Pow2(Width(ParseBlock(text).value.family))
  {
    BlockAsBound(text, V4);
    BlockAsBound(text, V6);
  }

  /** Any accepted network leaves out at least three quarters of its address family. */
  lemma AcceptedPrefixAtLeastTwo(entry: string)
    requires Verdict(entry).None? && Network(Candidate(entry)).Some?
    ensures Network(Candidate(entry)).value.prefix >= 2
  {
    var n := Network(Candidate(entry)).value;
    BlockBound(Candidate(entry));
    if n.prefix < 2 {
      ShortPrefixOverlaps(n);
    }
  }

  // ---- Blocked hosts ------------------------------------------------------------------------

  /** Loopback and link-local addresses however they are written, and `localhost`. */
  predicate BlockedHost(host: string) {
    || Candidate(host) == "localhost"
    || (ParseAddress(Candidate(host)).Some? && BlockedAddr(ParseAddress(Candidate(host)).value))
  }

  /** A suffix entry that could be the tail of a dotted quad, such as `.0.0.1`. */
  predicate QuadTailEntry(entry: string) {
    var rule := Candidate(entry);
    StartsWith(rule, ".") && OctetTail(rule[1..])
  }

  lemma NetworkNeverBlocked(n: Block, a: Address)
    requires n.Valid() && !OverlapsAny(n) && BlockedAddr(a)
    ensures !n.Contains(a)
  {
    BlockedAreBlocks();
    var b :| b in BLOCKED && b.Contains(a);
    if n.Contains(a) {
      OverlapIsNesting(n, b);
    }
  }

  lemma LocalhostIsNoAddress()
    ensures ParseAddress("localhost").None?
  {
    NotAnAddress("localhost");
  }

  lemma DotInside(host: string, suffix: string)
    requires EndsWith(host, "." + suffix)
    ensures '.' in host
  {
    assert host[|host| - |suffix| - 1] == '.';
  }

  lemma SuffixPermitsBlocked(bare: string, c: string)
    requires bare != "localhost" && (ParseAddress(bare).Some? ==> !BlockedAddr(ParseAddress(bare).value))
    requires c == "localhost" || (ParseAddress(c).Some? && BlockedAddr(ParseAddress(c).value))
    ensures c != bare
    ensures EndsWith(c, "." + bare) ==> OctetTail(bare)
  {
    if EndsWith(c, "." + bare) {
      DotInside(c, bare);
      AddressTail(c, bare);
    }
  }

  /** One accepted entry permits a blocked host only as the tail of a dotted quad. */
  lemma EntryPermitsBlocked(entry: string, host: string)
    requires Verdict(entry).None? && BlockedHost(host) && RulePermits(Candidate(entry), Candidate(host))
    ensures QuadTailEntry(entry)
  {
    var rule, c := Candidate(entry), Candidate(host);
    LocalhostIsNoAddress();
    if Network(rule).Some? {
      NetworkNeverBlocked(Network(rule).value, ParseAddress(c).value);
    } else {
      SuffixPermitsBlocked(RemovePrefix(rule, "."), c);
    }
  }

  // ---- A quad tail does permit one ----------------------------------------------------------

  function LoopbackLabels(n: nat): seq<string>
    requires 1 <= n <= 3
  {
    if n == 1 then ["127", "0", "0"] else if n == 2 then ["127", "0"] else ["127"]
  }

  lemma SmallOctets()
    ensures Octet("127") && Decimal("127") == 127 && Octet("0") && Decimal("0") == 0
  {
    assert "127"[..2] == "12" && "12"[..1] == "1" && "1"[..0] == "" && "0"[..0] == "";
    assert Decimal("1") == 1 && Decimal("12") == 12;
  }

  lemma LoopbackFront(n: nat)
    requires 1 <= n <= 3
    ensures Split(Join(LoopbackLabels(n), '.'), '.') == LoopbackLabels(n)
  {
    SplitWithout("127", '.');
    SplitWithout("0", '.');
    SplitAtSeparator("127", "0", '.');
    SplitAtSeparator("127", "0.0", '.');
    SplitAtSeparator("0", "0", '.');
    assert "127" + ['.'] + "0" == "127.0" && "0" + ['.'] + "0" == "0.0" && "127" + ['.'] + "0.0" == "127.0.0";
    assert ["127", "0"][1..] == ["0"] && ["127", "0", "0"][1..] == ["0", "0"] && ["0", "0"][1..] == ["0"];
    assert Join(["0", "0"], '.') == "0.0";
    assert Join(["127", "0"], '.') == "127.0";
    assert Join(["127", "0", "0"], '.') == "127.0.0";
  }

  lemma LoopbackParses(host: string, labels: seq<string>)
    requires 1 <= |labels| <= 3 && forall l :: l in labels ==> Octet(l)
    requires Split(host, '.') == LoopbackLabels(|labels|) + labels
    ensures ParseV4(host).Some? && 0x7F00_0000 <= ParseV4(host).value < 0x8000_0000
  {
    SmallOctets();
    var parts := Split(host, '.');
    assert forall i :: 0 <= i < |labels| ==> Octet(labels[i]);
    assert parts[0] == "127" && Octet(parts[1]) && Octet(parts[2]) && Octet(parts[3]);
  }

  lemma InLoopback(v: nat)
    requires 0x7F00_0000 <= v < 0x8000_0000
    ensures BlockedAddr(Address(V4, v))
  {
    Powers();
    BlockedAreBlocks();
    MaskIsRange(LOOPBACK4, Address(V4, v));
    assert LOOPBACK4 in BLOCKED;
  }

  /** The loopback address that ends in the given octets. */
  lemma LoopbackEndingIn(s: string) returns (host: string)
    requires OctetTail(s)
    ensures UnderDomain(host, s) && ParseAddress(host).Some? && BlockedAddr(ParseAddress(host).value)
    ensures host != "" && forall c :: c in host ==> Digit(c) || c == '.'
  {
    var labels := Split(s, '.');
    var front := Join(LoopbackLabels(|labels|), '.');
    host := front + ['.'] + s;
    LoopbackFront(|labels|);
    SplitAtSeparator(front, s, '.');
    assert host == front + ("." + s);
    LoopbackParses(host, labels);
    InLoopback(ParseV4(host).value);
    SmallOctets();
    DigitsAndDots(host);
  }

  lemma DigitsAndDots(text: string)
    requires forall l :: l in Split(text, '.') ==> Octet(l)
    ensures forall c :: c in text ==> Digit(c) || c == '.'
  {
    forall c | c in text ensures Digit(c) || c == '.' {
      if c != '.' {
        var at :| 0 <= at < |text| && text[at] == c;
        var i := PartWith(text, at, '.');
        assert Octet(Split(text, '.')[i]);
      }
    }
  }

  lemma PlainCandidate(text: string)
    requires forall c :: c in text ==> Digit(c) || c == '.'
    ensures Candidate(text) == text
  {
    assert forall i :: 0 <= i < |text| ==> text[i] in text;
    assert StripLeft(text) == text;
    assert StripRight(text) == text;
    assert Lower(text) == text;
  }

  lemma QuadTailPermits(entry: string) returns (host: string)
    requires QuadTailEntry(entry)
    ensures BlockedHost(host) && Candidate(host) != "" && RulePermits(Candidate(entry), Candidate(host))
  {
    var rule := Candidate(entry);
    host := LoopbackEndingIn(rule[1..]);
    PlainCandidate(host);
    DigitsAndDots(rule[1..]);
    assert '/' !in rule by {
      assert rule == ['.'] + rule[1..];
    }
    hide OctetTail, ParseAddress, Split, Candidate, BlockedHost, UnderDomain;
  }

  /** An accepted allowlist permits no blocked host if and only if it has no entry that is the tail of a dotted quad. */
  lemma AcceptedIsSafeExactly(entries: seq<string>)
    requires Accepted(entries)
    ensures (forall host :: BlockedHost(host) ==> !Permits(entries, host))
      <==> (forall e :: e in entries ==> !QuadTailEntry(e))
  {
    if forall e :: e in entries ==> !QuadTailEntry(e) {
      forall host | BlockedHost(host) ensures !Permits(entries, host) {
        if Permits(entries, host) {
          var e :| e in entries && RulePermits(Candidate(e), Candidate(host));
          EntryPermitsBlocked(e, host);
        }
      }
    }
    if e :| e in entries && QuadTailEntry(e) {
      var host := QuadTailPermits(e);
      assert Permits(entries, host);
    }
  }

  lemma OctetTailEndsInDigits(s: string)
    requires OctetTail(s)
    ensures AllDigits(Split(s, '.')[|Split(s, '.')| - 1])
  {
    assert Split(s, '.')[|Split(s, '.')| - 1] in Split(s, '.');
  }

  /** In particular suffixes that end in a label with a character other than a digit are safe. */
  lemma NamedSuffixesAreSafe(entries: seq<string>, host: string)
    requires Accepted(entries) && BlockedHost(host)
    requires forall e :: e in entries && StartsWith(Candidate(e), ".") ==>
               var labels := Split(Candidate(e)[1..], '.'); !AllDigits(labels[|labels| - 1])
    ensures !Permits(entries, host)
  {
    hide Accepted, BlockedHost, Permits, OctetTail, Split, AllDigits, Candidate;
    forall e | e in entries ensures !QuadTailEntry(e) {
      if QuadTailEntry(e) {
        OctetTailEndsInDigits(Candidate(e)[1..]);
      }
    }
    hide QuadTailEntry;
    AcceptedIsSafeExactly(entries);
  }

  // ---- The metadata host --------------------------------------------------------------------

  predicate PlainLabel(s: string) {
    s != "" && forall c :: c in s ==> 'a' <= c <= 'z'
  }

  /** A three-label name is permitted by suffix exactly through one of its own tails. */
  lemma ThreeLabels(x: string, y: string, z: string, suffix: string)
    requires PlainLabel(x) && PlainLabel(y) && PlainLabel(z)
    ensures var yz := y + ['.'] + z; var host := x + ['.'] + yz;
            UnderDomain(host, suffix) <==> suffix == z || suffix == yz || suffix == host
  {
    var yz := y + ['.'] + z;
    var host := x + ['.'] + yz;
    SplitWithout(x, '.');
    SplitWithout(y, '.');
    SplitWithout(z, '.');
    SplitAtSeparator(y, z, '.');
    SplitAtSeparator(x, yz, '.');
    DomainIsLabels(host, suffix);
    JoinSplit(suffix, '.');
    JoinSplit(z, '.');
    JoinSplit(yz, '.');
    JoinSplit(host, '.');
    var all := [x, y, z];
    assert Split(host, '.') == all;
    assert all[0..] == all && all[1..] == [y, z] && all[2..] == [z];
  }

  lemma ThreeLabelsPlain(x: string, y: string, z: string)
    requires PlainLabel(x) && PlainLabel(y) && PlainLabel(z)
    ensures var host := x + ['.'] + (y + ['.'] + z);
      && (forall c :: c in host ==> 'a' <= c <= 'z' || c == '.')
      && Candidate(host) == host && ParseAddress(host).None?
  {
    var host := x + ['.'] + (y + ['.'] + z);
    assert forall c :: c in host ==> c in x || c == '.' || c in y || c in z;
    LowerNameCandidate(host);
    SplitWithout(x, '.');
    SplitWithout(y, '.');
    SplitWithout(z, '.');
    SplitAtSeparator(y, z, '.');
    SplitAtSeparator(x, y + ['.'] + z, '.');
    SplitWithout(host, ':');
  }

  lemma LowerNameCandidate(text: string)
    requires forall c :: c in text ==> 'a' <= c <= 'z' || c == '.'
    ensures Candidate(text) == text
  {
    assert forall i :: 0 <= i < |text| ==> text[i] in text;
    assert StripLeft(text) == text;
    assert StripRight(text) == text;
    assert Lower(text) == text;
  }

  lemma MetadataLabels()
    ensures PlainLabel("metadata") && PlainLabel("google") && PlainLabel("internal")
    ensures METADATA == "metadata" + ['.'] + ("google" + ['.'] + "internal")
  {
    assert "metadata." == "metadata" + ['.'] && "google." == "google" + ['.'];
  }

  lemma ThreeLabelRule(x: string, y: string, z: string, entry: string)
    requires PlainLabel(x) && PlainLabel(y) && PlainLabel(z)
    requires Verdict(entry).None?
    ensures var yz := y + ['.'] + z; var host := x + ['.'] + yz; var rule := Candidate(entry);
            RulePermits(rule, host) <==> rule == ['.'] + z || rule == ['.'] + yz || rule == ['.'] + host || rule == host
  {
    var yz := y + ['.'] + z;
    var host := x + ['.'] + yz;
    var rule := Candidate(entry);
    ThreeLabelsPlain(x, y, z);
    assert forall c :: c in ['.'] + host ==> 'a' <= c <= 'z' || c == '.';
    assert forall c :: c in ['.'] + yz ==> c in ['.'] + host;
    assert forall c :: c in ['.'] + z ==> c in ['.'] + host;
    if rule != "" && rule[0] == '.' {
      ThreeLabels(x, y, z, rule[1..]);
      assert rule == ['.'] + rule[1..];
    }
    assert host[0] == x[0];
  }

  /** The metadata name is refused as an entry, but an accepted suffix above it still permits it, and nothing
      else does. */
  lemma MetadataPermittedExactly(entries: seq<string>)
    requires Accepted(entries)
    ensures Permits(entries, METADATA)
      <==> ['.'] + "internal" in Rules(entries) || ['.'] + ("google" + ['.'] + "internal") in Rules(entries)
  {
    MetadataLabels();
    ThreeLabelsPlain("metadata", "google", "internal");
    PermitsIsARule(entries, METADATA);
    forall e | e in entries
      ensures RulePermits(Candidate(e), METADATA) <==>
              Candidate(e) == ['.'] + "internal" || Candidate(e) == ['.'] + ("google" + ['.'] + "internal")
    {
      ThreeLabelRule("metadata", "google", "internal", e);
      NeverTheMetadataName(e);
    }
  }

  lemma NeverTheMetadataName(entry: string)
    requires Verdict(entry).None?
    ensures Candidate(entry) != METADATA && Candidate(entry) != ['.'] + METADATA
  {
    MetadataLabels();
    ThreeLabelsPlain("metadata", "google", "internal");
    var rule := Candidate(entry);
    assert rule == METADATA ==> RemovePrefix(rule, ".") == METADATA && '/' !in rule;
    assert rule == ['.'] + METADATA ==> RemovePrefix(rule, ".") == METADATA && '/' !in rule;
  }

  // ---- Entries that are accepted and unsafe -------------------------------------------------

  lemma OctetIsLabel(l: string)
    requires Octet(l)
    ensures Label(l)
  {
    assert l[0] in l && l[|l| - 1] in l;
  }

  lemma QuadTailIsHostname(s: string)
    requires OctetTail(s)
    ensures Hostname(s)
  {
    forall l | l in Split(s, '.') ensures Label(l) {
      OctetIsLabel(l);
    }
  }

  lemma QuadTailIsNoAddress(s: string)
    requires OctetTail(s)
    ensures ParseAddress(s).None?
  {
    DigitsAndDots(s);
    SplitWithout(s, ':');
  }

  lemma SuffixAccepted(bare: string)
    requires Candidate("." + bare) == "." + bare && '/' !in bare && bare != "localhost" && bare != METADATA
    requires ParseAddress(bare).None? && Hostname(bare)
    ensures Verdict("." + bare).None? && Accepted(["." + bare])
  {
    hide Candidate, ParseAddress, Hostname, ParseBlock, OverlapsAny, METADATA, Lower;
    var entry := "." + bare;
    LowerCandidate(entry);
    assert entry[1..] == bare;
    assert RemovePrefix(entry, ".") == bare && '/' !in entry;
  }

  lemma LowerCandidate(entry: string)
    requires Candidate(entry) == entry
    ensures Lower(entry) == entry
  {
    var stripped := Strip(entry);
    assert |stripped| == |entry|;
    assert stripped == entry by {
      assert |StripLeft(entry)| == |entry| && EndsWith(entry, StripLeft(entry));
    }
  }

  lemma SuffixPermitsHost(bare: string, host: string)
    requires Candidate("." + bare) == "." + bare && '/' !in bare
    requires Candidate(host) == host && host != "" && UnderDomain(host, bare)
    ensures Permits(["." + bare], host)
  {
    hide Candidate, UnderDomain;
    var entry := "." + bare;
    assert entry[1..] == bare && '/' !in entry;
    assert entry in [entry];
    assert RulePermits(Candidate(entry), Candidate(host));
  }

  lemma TailText(s: string)
    requires OctetTail(s)
    ensures s != "" && (forall c :: c in s ==> Digit(c) || c == '.')
    ensures Candidate("." + s) == "." + s && '/' !in s
  {
    DigitsAndDots(s);
    assert forall c :: c in "." + s ==> c == '.' || c in s;
    PlainCandidate("." + s);
    assert Split("", '.') == [""];
    assert s == "" ==> "" in Split(s, '.');
  }

  lemma TailPermits(s: string) returns (host: string)
    requires OctetTail(s)
    ensures BlockedHost(host) && Permits(["." + s], host)
  {
    TailText(s);
    host := LoopbackEndingIn(s);
    PlainCandidate(host);
    SuffixPermitsHost(s, host);
  }

  /** Every tail of a dotted quad is accepted as a suffix, so the exception above is never idle. */
  lemma QuadTailsAreAccepted(s: string)
    requires OctetTail(s)
    ensures Accepted(["." + s])
    ensures exists host :: BlockedHost(host) && Permits(["." + s], host)
  {
    TailText(s);
    QuadTailIsHostname(s);
    QuadTailIsNoAddress(s);
    hide Candidate, ParseAddress, Hostname, OctetTail, Accepted, Permits, BlockedHost, Verdict;
    NotABlockedName(s);
    SuffixAccepted(s);
    var host := TailPermits(s);
  }

  lemma NotABlockedName(s: string)
    requires s != "" && forall c :: c in s ==> Digit(c) || c == '.'
    ensures s != "localhost" && s != METADATA
  {
    MetadataLabels();
    assert s[0] in s;
    assert "localhost"[0] == 'l' && METADATA[0] == "metadata"[0] == 'm';
  }

  lemma OneIsOctet()
    ensures Octet("1")
  {
    assert Decimal("1"[..0]) == 0;
  }

  lemma SmallTail()
    ensures Split("0.0.1", '.') == ["0", "0", "1"] && OctetTail("0.0.1")
    ensures Split("127.0.0.1", '.') == ["127", "0", "0", "1"]
  {
    SmallOctets();
    OneIsOctet();
    hide Octet, Split;
    SplitWithout("0", '.');
    SplitWithout("1", '.');
    SplitWithout("127", '.');
    assert "0.1" == "0" + ['.'] + "1" && "0.0.1" == "0" + ['.'] + "0.1";
    assert "127.0.0.1" == "127" + ['.'] + "0.0.1";
    SplitAtSeparator("0", "1", '.');
    SplitAtSeparator("0", "0.1", '.');
    SplitAtSeparator("127", "0.0.1", '.');
  }

  lemma LoopbackHost(host: string, s: string)
    requires OctetTail(s) && Split(host, '.') == LoopbackLabels(|Split(s, '.')|) + Split(s, '.')
    ensures Candidate(host) == host && host != "" && BlockedHost(host) && UnderDomain(host, s)
  {
    SmallOctets();
    var labels := Split(s, '.');
    DigitsAndDots(host);
    PlainCandidate(host);
    LoopbackParses(host, labels);
    InLoopback(ParseV4(host).value);
    DomainIsLabels(host, s);
    assert Split(host, '.')[|LoopbackLabels(|labels|)|..] == labels;
    assert Split("", '.') == [""] && Octet(labels[0]);
  }

  lemma LoopbackLiteral()
    ensures OctetTail("0.0.1") && Split("127.0.0.1", '.') == LoopbackLabels(|Split("0.0.1", '.')|) + Split("0.0.1", '.')
  {
    SmallTail();
    assert LoopbackLabels(3) == ["127"];
  }

  /** For one, `.0.0.1` is accepted and permits 127.0.0.1. */
  lemma LoopbackByItsTail()
    ensures Accepted([".0.0.1"]) && BlockedHost("127.0.0.1") && Permits([".0.0.1"], "127.0.0.1")
  {
    hide Candidate, ParseAddress, OctetTail, Accepted, Permits, UnderDomain, BlockedHost, Split, LoopbackLabels;
    LoopbackLiteral();
    LoopbackHost("127.0.0.1", "0.0.1");
    TailText("0.0.1");
    QuadTailsAreAccepted("0.0.1");
    SuffixPermitsHost("0.0.1", "127.0.0.1");
    assert ".0.0.1" == "." + "0.0.1";
  }

  lemma PlainSuffix(z: string)
    requires PlainLabel(z) && |z| <= 63
    ensures Candidate("." + z) == "." + z && ParseAddress(z).None? && Hostname(z) && '/' !in z
  {
    hide Candidate, ParseAddress, Split;
    assert forall c :: c in "." + z ==> c == '.' || c in z;
    LowerNameCandidate("." + z);
    SplitWithout(z, '.');
    NotAnAddress(z);
    assert z[0] in z && z[|z| - 1] in z;
  }

  lemma MetadataRefused()
    ensures Verdict(METADATA) == Some(BlockedName)
  {
    MetadataLabels();
    ThreeLabelsPlain("metadata", "google", "internal");
    LowerCandidate(METADATA);
    assert METADATA[0] == "metadata"[0] == 'm';
    hide Candidate, ParseAddress, Hostname, ParseBlock, OverlapsAny, Lower;
    assert RemovePrefix(METADATA, ".") == METADATA && '/' !in METADATA && METADATA != "";
  }

  lemma InternalIsOther()
    ensures "internal" != "localhost" && "internal" != METADATA && PlainLabel("internal")
  {
    MetadataLabels();
    assert "internal"[0] == 'i' && "localhost"[0] == 'l' && METADATA[0] == "metadata"[0] == 'm';
  }

  /** And `.internal` is accepted and permits the metadata name, which itself is refused. */
  lemma MetadataByItsDomain()
    ensures Accepted([".internal"]) && Permits([".internal"], METADATA) && Verdict(METADATA) == Some(BlockedName)
  {
    hide Candidate, ParseAddress, Hostname, Verdict, Permits, METADATA, Accepted, PlainLabel;
    MetadataRefused();
    InternalIsOther();
    PlainSuffix("internal");
    assert ".internal" == "." + "internal" == ['.'] + "internal";
    SuffixAccepted("internal");
    assert Candidate(".internal") in Rules([".internal"]);
    MetadataPermittedExactly([".internal"]);
  }
}
