/** Which hosts a generator may be pointed at: what an allowlist may say, and what it then permits. */
module TargetPolicy {
  import opened Wrappers
  import opened Text
  import opened IpBlocks
  import opened AddressText

  datatype Refusal =
    | EmptyOrPadded | PermitsEverything | OverlapsBlocked | LooksLikePath | BlockedName | BlockedAddress | NotAHost

  const LOOPBACK4 := Block(V4, 0x7F00_0000, 8)
  const LINK_LOCAL4 := Block(V4, 0xA9FE_0000, 16)
  const LOOPBACK6 := Block(V6, 1, 128)
  const LINK_LOCAL6 := Block(V6, 0xFE80_0000_0000_0000_0000_0000_0000_0000, 10)

  const METADATA: string := "metadata." + ("google." + "internal")

  const BLOCKED: seq<Block> := [LOOPBACK4, LINK_LOCAL4, LOOPBACK6, LINK_LOCAL6]

  lemma BlockedAreBlocks()
    ensures forall b :: b in BLOCKED ==> b.Valid()
  {
    Powers();
    assert LOOPBACK4.Valid() && LINK_LOCAL4.Valid() && LOOPBACK6.Valid() && LINK_LOCAL6.Valid();
  }

  predicate BlockedAddr(a: Address) {
    exists b :: b in BLOCKED && b.prefix <= Width(b.family) && b.Contains(a)
  }

  predicate OverlapsAny(n: Block)
    requires n.Valid()
  {
    BlockedAreBlocks();
    exists b :: b in BLOCKED && Overlaps(n, b)
  }

  function Network(text: string): (b: Option<Block>)
    ensures b.Some? ==> b.value.Valid()
  {
    if '/' in text then ParseBlock(text) else None
  }

  predicate Label(s: string) {
    && 1 <= |s| <= 63
    && (forall c :: c in s ==> Letter(c) || Digit(c) || c == '-')
    && s[0] != '-' && s[|s| - 1] != '-'
  }

  /** Dot-separated labels of letters, digits and inner hyphens (section 2.3.1 of RFC 1035). */
  predicate Hostname(s: string) {
    forall l :: l in Split(s, '.') ==> Label(l)
  }

  function Candidate(text: string): string {
    Lower(Strip(text))
  }

  /** Why one entry is refused, or None. */
  function Verdict(entry: string): Option<Refusal> {
    var candidate := Candidate(entry);
    if candidate == "" || candidate != Lower(entry) then Some(EmptyOrPadded) else
    match Network(candidate)
    case Some(n) =>
      if n.prefix == 0 then Some(PermitsEverything)
      else if OverlapsAny(n) then Some(OverlapsBlocked)
      else None
    case None =>
      if '/' in candidate then Some(LooksLikePath) else
      var bare := RemovePrefix(candidate, ".");
      if bare == "localhost" || bare == METADATA then Some(BlockedName) else
      match ParseAddress(bare)
      case Some(a) => if BlockedAddr(a) then Some(BlockedAddress) else None
      case None => if Hostname(bare) then None else Some(NotAHost)
  }

  predicate Accepted(entries: seq<string>) {
    forall e :: e in entries ==> Verdict(e).None?
  }

  predicate RulePermits(rule: string, host: string) {
    match Network(rule)
    case Some(n) => (match ParseAddress(host) case Some(a) => n.Contains(a) case None => false)
    case None => if StartsWith(rule, ".") then UnderDomain(host, rule[1..]) else host == rule
  }

  /** A host is permitted exactly when some entry permits it. */
  predicate Permits(entries: seq<string>, host: string) {
    Candidate(host) != "" && exists e :: e in entries && RulePermits(Candidate(e), Candidate(host))
  }

  // ---- Which hosts an entry permits ---------------------------------------------------------

  /** An address of this family in the range the block spans. */
  ghost predicate InRange(n: Block, a: Option<Address>)
    requires n.Valid()
  {
    a.Some? && a.value.family == n.family && n.base <= a.value.value < n.base + n.Size()
  }

  /** An entry that reads as a network admits the texts of its addresses; one that starts with a dot, the hosts whose
      labels end in its own; any other, itself. Case and padding do not matter. */
  ghost predicate Admits(entry: string, host: string) {
    var rule, name := Lower(Strip(entry)), Lower(Strip(host));
    name != "" &&
    match ParseBlock(rule)
    case Some(n) => InRange(n, ParseAddress(name))
    case None =>
      if rule != "" && rule[0] == '.' then ListSuffix(Split(rule[1..], '.'), Split(name, '.')) else name == rule
  }

  lemma BlockHasSlash(text: string)
    ensures Network(text) == ParseBlock(text)
  {
    if '/' !in text {
      SplitWithout(text, '/');
    }
  }

  lemma RuleAdmits(entry: string, host: string)
    requires Candidate(host) != ""
    ensures RulePermits(Candidate(entry), Candidate(host)) <==> Admits(entry, host)
  {
    var rule, name := Candidate(entry), Candidate(host);
    BlockHasSlash(rule);
    var n := Network(rule);
    if n.Some? {
      RangeIsBlock(n.value, ParseAddress(name));
    } else if rule != "" && rule[0] == '.' {
      DomainIsLabels(name, rule[1..]);
    }
    hide Lower, Strip, ParseBlock, ParseAddress, Split, Network;
  }

  lemma RangeIsBlock(n: Block, a: Option<Address>)
    requires n.Valid()
    ensures InRange(n, a) <==> a.Some? && n.Contains(a.value)
  {
    if a.Some? {
      MaskIsRange(n, a.value);
    }
  }

  /** A list permits a host exactly when one of its entries admits it. */
  lemma PermitsExactly(entries: seq<string>, host: string)
    ensures Permits(entries, host) <==> exists e :: e in entries && Admits(e, host)
  {
    hide RulePermits;
    if Candidate(host) == "" {
      forall e | e in entries ensures !Admits(e, host) {
      }
    } else {
      forall e | e in entries ensures RulePermits(Candidate(e), Candidate(host)) <==> Admits(e, host) {
        RuleAdmits(e, host);
      }
    }
    hide Admits, Candidate;
  }

  /** A network permits exactly the texts that read as one of its addresses. */
  lemma NetworkPermits(entry: string, host: string)
    requires ParseBlock(Lower(Strip(entry))).Some? && Lower(Strip(host)) != ""
    ensures var n, a := ParseBlock(Lower(Strip(entry))).value, ParseAddress(Lower(Strip(host)));
      Permits([entry], host) <==>
        a.Some? && a.value.family == n.family && n.base <= a.value.value < n.base + n.Size()
  {
    OneEntry(entry, host);
    hide Lower, Strip, ParseBlock, ParseAddress, Permits;
  }

  /** What is neither a network nor a suffix permits exactly itself. */
  lemma NamePermits(entry: string, host: string)
    requires ParseBlock(Lower(Strip(entry))).None? && Lower(Strip(host)) != ""
    requires var rule := Lower(Strip(entry)); rule == "" || rule[0] != '.'
    ensures Permits([entry], host) <==> Lower(Strip(host)) == Lower(Strip(entry))
  {
    OneEntry(entry, host);
    hide Lower, Strip, ParseBlock, ParseAddress, Permits;
  }

  lemma OneEntry(entry: string, host: string)
    ensures Permits([entry], host) <==> Admits(entry, host)
  {
    PermitsExactly([entry], host);
    assert entry in [entry];
    hide Permits, Admits;
  }

  // ---- The service --------------------------------------------------------------------------

  /** The first entry that may not be stored stops the loop and is named. */
  method ValidateEntries(entries: seq<string>) returns (refused: Result<(), (string, Refusal)>)
    ensures refused.Ok? <==> Accepted(entries)
    ensures refused.Err? ==>
      exists i :: 0 <= i < |entries| && Accepted(entries[..i]) && entries[i] == refused.error.0
               && Verdict(entries[i]) == Some(refused.error.1)
  {
    for i := 0 to |entries|
      invariant Accepted(entries[..i])
    {
      match Verdict(entries[i])
      case Some(reason) =>
        assert entries[i] in entries;
        return Err((entries[i], reason));
      case None =>
        assert entries[..i + 1] == entries[..i] + [entries[i]];
    }
    assert entries[..|entries|] == entries;
    return Ok(());
  }

  method MatchesAllowlist(host: string, entries: seq<string>) returns (permitted: bool)
    ensures permitted <==> Permits(entries, host)
    ensures permitted <==> exists e :: e in entries && Admits(e, host)
  {
    PermitsExactly(entries, host);
    hide Admits, RulePermits, Candidate;
    var candidate := Candidate(host);
    if candidate == "" {
      return false;
    }
    for i := 0 to |entries|
      invariant forall j :: 0 <= j < i ==> !RulePermits(Candidate(entries[j]), candidate)
    {
      if RulePermits(Candidate(entries[i]), candidate) {
        return true;
      }
    }
    return false;
  }

  function Rules(entries: seq<string>): set<string> {
    set e | e in entries :: Candidate(e)
  }

  lemma PermitsIsARule(entries: seq<string>, host: string)
    ensures Permits(entries, host)
      <==> Candidate(host) != "" && exists r :: r in Rules(entries) && RulePermits(r, Candidate(host))
  {
    if Candidate(host) != "" && exists r :: r in Rules(entries) && RulePermits(r, Candidate(host)) {
      var r :| r in Rules(entries) && RulePermits(r, Candidate(host));
      var e :| e in entries && Candidate(e) == r;
    }
  }

  /** Only the set of normalised rules and the normalised host matter: not order, repetition, case or padding. More
      rules only permit more. */
  lemma PermitsDependsOnRules(xs: seq<string>, ys: seq<string>, host: string, host': string)
    requires Candidate(host) == Candidate(host') && Rules(xs) <= Rules(ys)
    ensures Permits(xs, host) ==> Permits(ys, host')
  {
    PermitsIsARule(xs, host);
    PermitsIsARule(ys, host');
  }

  // ---- CIDR entries -------------------------------------------------------------------------

  /** A network of prefix length 0 or 1 always meets a blocked one, so the explicit zero-length check adds nothing. */
  lemma ShortPrefixOverlaps(n: Block)
    requires n.Valid() && n.prefix < 2 && n.base < Pow2(Width(n.family))
    ensures OverlapsAny(n)
  {
    HalfBase(n);
    BlockedAreBlocks();
    Powers();
    var low := if n.family.V4? then LOOPBACK4 else LOOPBACK6;
    var high := if n.family.V4? then LINK_LOCAL4 else LINK_LOCAL6;
    var b := if n.base == 0 then low else high;
    assert b in BLOCKED;
    MaskIsRange(n, b.First());
    assert n.Contains(b.First());
    assert Overlaps(n, b);
  }

  lemma HalfBase(n: Block)
    requires n.Valid() && n.prefix < 2 && n.base < Pow2(Width(n.family))
    ensures n.prefix == 0 ==> n.base == 0
    ensures n.Size() * (if n.prefix == 0 then 1 else 2) == Pow2(Width(n.family))
    ensures n.prefix == 1 ==> n.base == 0 || n.base == n.Size()
  {
    hide Pow2;
    HalfSize(Width(n.family), n.prefix);
    SmallMultiple(n.base / n.Size(), n.Size(), if n.prefix == 0 then 1 else 2, n.base);
  }

  lemma HalfSize(width: nat, prefix: nat)
    requires prefix < 2 && width >= 1
    ensures Pow2(width - prefix) * (if prefix == 0 then 1 else 2) == Pow2(width)
  {
  }

  lemma SmallMultiple(q: nat, s: nat, k: nat, base: nat)
    requires s >= 1 && base == q * s && q * s < s * k && 1 <= k <= 2
    ensures k == 1 ==> base == 0
    ensures base == 0 || base == s
  {
    TimesMonotone(k, q, s);
    assert q < k;
    assert q == 0 || q == 1;
  }
}
