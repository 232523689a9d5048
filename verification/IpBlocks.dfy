/** Addresses as numbers and CIDR blocks as aligned ranges of them (section 3.1 of RFC 4632, section 2.3
    of RFC 4291). */
module IpBlocks {

  datatype Family = V4 | V6

  function Width(f: Family): nat {
    if f.V4? then 32 else 128
  }

  function Pow2(n: nat): (p: nat)
    ensures p >= 1
  {
    if n == 0 then 1 else 2 * Pow2(n - 1)
  }

  /** `ip & netmask`: the host bits cleared. */
  function Masked(value: nat, size: nat): nat
    requires size >= 1
  {
    value / size * size
  }

  datatype Address = Address(family: Family, value: nat)

  datatype Block = Block(family: Family, base: nat, prefix: nat) {
    predicate Valid() {
      prefix <= Width(family) && Masked(base, Size()) == base
    }

    function Size(): (s: nat)
      requires prefix <= Width(family)
      ensures s >= 1
    {
      Pow2(Width(family) - prefix)
    }

    predicate Contains(a: Address)
      requires prefix <= Width(family)
    {
      a.family == family && Masked(a.value, Size()) == base
    }

    function First(): Address {
      Address(family, base)
    }

    function Last(): Address
      requires prefix <= Width(family)
    {
      Address(family, base + Size() - 1)
    }
  }

  /** One block's ends fall in the other. */
  predicate Overlaps(n: Block, m: Block)
    requires n.Valid() && m.Valid()
  {
    n.Contains(m.First()) || n.Contains(m.Last()) || m.Contains(n.First()) || m.Contains(n.Last())
  }

  ghost predicate Within(n: Block, m: Block)
    requires n.Valid() && m.Valid()
  {
    forall a :: n.Contains(a) ==> m.Contains(a)
  }

  ghost predicate Share(n: Block, m: Block)
    requires n.Valid() && m.Valid()
  {
    exists a :: n.Contains(a) && m.Contains(a)
  }

  /** With `strict=False` the host bits of the written address are dropped. */
  function BlockOf(a: Address, prefix: nat): (b: Block)
    requires prefix <= Width(a.family)
    ensures b.Valid() && b.Contains(a)
  {
    var size := Pow2(Width(a.family) - prefix);
    MaskedTwice(a.value, size);
    Block(a.family, Masked(a.value, size), prefix)
  }

  lemma TimesMonotone(a: int, b: int, s: nat)
    ensures a <= b ==> a * s <= b * s
    ensures a * s < b * s ==> a < b
  {
    if a <= b {
      assert (b - a) * s >= 0;
      assert b * s == a * s + (b - a) * s;
    }
    if b <= a {
      assert (a - b) * s >= 0;
      assert a * s == b * s + (a - b) * s;
    }
  }

  lemma QuotientUnique(q: nat, r: nat, size: nat)
    requires r < size
    ensures (q * size + r) / size == q
  {
    var v := q * size + r;
    var d := v / size;
    assert d * size <= v < d * size + size;
    assert (d + 1) * size == d * size + size && (q + 1) * size == q * size + size;
    TimesMonotone(q, d + 1, size);
    TimesMonotone(d, q + 1, size);
  }

  lemma MaskedTwice(value: nat, size: nat)
    requires size >= 1
    ensures Masked(Masked(value, size), size) == Masked(value, size)
  {
    QuotientUnique(value / size, 0, size);
  }

  /** Masking is range membership: a block holds exactly the addresses from its first to its last. */
  lemma MaskIsRange(b: Block, a: Address)
    requires b.Valid()
    ensures b.Contains(a) <==> a.family == b.family && b.base <= a.value < b.base + b.Size()
  {
    var size := b.Size();
    var q := a.value / size;
    assert a.value == q * size + a.value % size;
    if b.base <= a.value < b.base + size {
      QuotientUnique(b.base / size, a.value - b.base, size);
    }
  }

  lemma {:induction false} Pow2Adds(i: nat, j: nat)
    ensures Pow2(i + j) == Pow2(i) * Pow2(j)
  {
    if i > 0 {
      Pow2Adds(i - 1, j);
      assert Pow2(i + j) == 2 * (Pow2(i - 1) * Pow2(j));
      assert 2 * (Pow2(i - 1) * Pow2(j)) == (2 * Pow2(i - 1)) * Pow2(j);
    }
  }

  lemma SmallPowers()
    ensures Pow2(6) == 64 && Pow2(8) == 256 && Pow2(10) == 1024
    ensures Pow2(16) == 0x1_0000 && Pow2(22) == 0x40_0000 && Pow2(24) == 0x100_0000 && Pow2(32) == 0x1_0000_0000
  {
    assert Pow2(6) == 64 && Pow2(8) == 256;
    assert Pow2(10) == 1024 by { Pow2Adds(2, 8); }
    assert Pow2(16) == 0x1_0000 by { Pow2Adds(8, 8); }
    assert Pow2(22) == 0x40_0000 by { Pow2Adds(6, 16); }
    assert Pow2(24) == 0x100_0000 by { Pow2Adds(8, 16); }
    assert Pow2(32) == 0x1_0000_0000 by { Pow2Adds(16, 16); }
  }

  lemma Powers()
    ensures Pow2(16) == 0x1_0000 && Pow2(24) == 0x100_0000 && Pow2(32) == 0x1_0000_0000
    ensures Pow2(118) == 0x40_0000_0000_0000_0000_0000_0000_0000
    ensures Pow2(128) == 1024 * Pow2(118)
  {
    SmallPowers();
    assert Pow2(54) == 0x40_0000_0000_0000 by { Pow2Adds(22, 32); }
    assert Pow2(64) == 0x1_0000_0000_0000_0000 by { Pow2Adds(32, 32); }
    assert Pow2(118) == 0x40_0000_0000_0000_0000_0000_0000_0000 by { Pow2Adds(54, 64); }
    assert Pow2(128) == 1024 * Pow2(118) by { Pow2Adds(10, 118); }
  }

  /** Two aligned ranges that meet are nested: the one of size `s` lies inside the one of size `s * q`. */
  lemma AlignedNest(k: nat, s: nat, l: nat, q: nat)
    requires k * s < l * (s * q) + s * q && l * (s * q) < k * s + s
    ensures l * (s * q) <= k * s && k * s + s <= l * (s * q) + s * q
  {
    var m := l * q;
    assert l * (s * q) == m * s && s * q == q * s;
    assert (m + q) * s == m * s + q * s && (k + 1) * s == k * s + s;
    TimesMonotone(k, m + q, s);
    TimesMonotone(m, k + 1, s);
    TimesMonotone(m, k, s);
    TimesMonotone(k + 1, m + q, s);
  }

  lemma MeetingRanges(n: Block, m: Block)
    requires n.Valid() && m.Valid() && n.family == m.family && n.prefix >= m.prefix
    requires n.base < m.base + m.Size() && m.base < n.base + n.Size()
    ensures m.base <= n.base && n.base + n.Size() <= m.base + m.Size()
  {
    var s, q := n.Size(), Pow2(n.prefix - m.prefix);
    Pow2Adds(Width(n.family) - n.prefix, n.prefix - m.prefix);
    assert m.Size() == s * q;
    AlignedNest(n.base / s, s, m.base / m.Size(), q);
  }

  lemma MeetingNests(n: Block, m: Block, a: Address)
    requires n.Valid() && m.Valid() && n.Contains(a) && m.Contains(a) && n.prefix >= m.prefix
    ensures Within(n, m)
  {
    MaskIsRange(n, a);
    MaskIsRange(m, a);
    MeetingRanges(n, m);
    forall b | n.Contains(b) ensures m.Contains(b) {
      MaskIsRange(n, b);
      MaskIsRange(m, b);
    }
  }

  /** Overlapping, being nested one way or the other, and sharing an address are the same thing. */
  lemma OverlapIsNesting(n: Block, m: Block)
    requires n.Valid() && m.Valid()
    ensures Overlaps(n, m) <==> Share(n, m)
    ensures Overlaps(n, m) <==> Within(n, m) || Within(m, n)
  {
    EndsInside(n);
    EndsInside(m);
    if Share(n, m) {
      var a :| n.Contains(a) && m.Contains(a);
      if n.prefix >= m.prefix {
        MeetingNests(n, m, a);
      } else {
        MeetingNests(m, n, a);
      }
    }
  }

  lemma EndsInside(n: Block)
    requires n.Valid()
    ensures n.Contains(n.First()) && n.Contains(n.Last())
  {
    MaskIsRange(n, n.First());
    MaskIsRange(n, n.Last());
  }
}
