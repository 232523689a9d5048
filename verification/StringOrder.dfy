/** Strings in the order of their characters' code points. */
module StringOrder {
  import opened Orders

  /** Strings compare by their characters' code points. */
  predicate StringBefore(a: string, b: string) {
    if b == "" then false
    else a == "" || a[0] < b[0] || (a[0] == b[0] && StringBefore(a[1..], b[1..]))
  }

  /** At the first place where they differ the one that comes before has the smaller character, or has ended. */
  ghost predicate DiffersAt(a: string, b: string, k: nat) {
    k <= |a| && k < |b| && a[..k] == b[..k] && (k == |a| || a[k] < b[k])
  }

  lemma SameFirst(a: string, b: string, k: nat)
    requires 0 < k <= |a| && k <= |b| && a[..k] == b[..k]
    ensures a[0] == b[0]
  {
    assert a[..k][0] == a[0] && b[..k][0] == b[0];
  }

  lemma {:induction false} StringBeforeExactly(a: string, b: string)
    ensures StringBefore(a, b) <==> exists k: nat :: DiffersAt(a, b, k)
  {
    if b == "" || a == "" || a[0] != b[0] {
      if b != "" && (a == "" || a[0] < b[0]) {
        assert DiffersAt(a, b, 0);
      }
      if k: nat :| DiffersAt(a, b, k) {
        if k > 0 {
          SameFirst(a, b, k);
        }
      }
    } else {
      StringBeforeExactly(a[1..], b[1..]);
      if k: nat :| DiffersAt(a[1..], b[1..], k) {
        assert a[..k + 1] == [a[0]] + a[1..][..k] && b[..k + 1] == [b[0]] + b[1..][..k];
        assert DiffersAt(a, b, k + 1);
      }
      if k: nat :| DiffersAt(a, b, k) {
        assert k > 0 && a[1..][..k - 1] == a[..k][1..] && b[1..][..k - 1] == b[..k][1..];
        assert DiffersAt(a[1..], b[1..], k - 1);
      }
    }
  }

  lemma {:induction false} StringBeforeTotal(a: string, b: string)
    ensures a == b || StringBefore(a, b) || StringBefore(b, a)
  {
    if a != "" && b != "" && a[0] == b[0] {
      StringBeforeTotal(a[1..], b[1..]);
      assert a == [a[0]] + a[1..] && b == [b[0]] + b[1..];
    }
  }

  lemma {:induction false} StringBeforeTransitive(a: string, b: string, c: string)
    requires StringBefore(a, b) && StringBefore(b, c)
    ensures StringBefore(a, c)
  {
    if a != "" && a[0] == b[0] == c[0] {
      StringBeforeTransitive(a[1..], b[1..], c[1..]);
    }
  }

  lemma {:induction false} StringBeforeIrreflexive(a: string)
    ensures !StringBefore(a, a)
  {
    if a != "" {
      StringBeforeIrreflexive(a[1..]);
    }
  }

  lemma StringsOrdered(s: set<string>)
    ensures OrderOn(StringBefore, s)
  {
    forall a, b | a in s && b in s && a != b ensures StringBefore(a, b) || StringBefore(b, a) {
      StringBeforeTotal(a, b);
    }
    forall a, b, c | a in s && b in s && c in s && StringBefore(a, b) && StringBefore(b, c) ensures StringBefore(a, c) {
      StringBeforeTransitive(a, b, c);
    }
    forall a | a in s ensures !StringBefore(a, a) {
      StringBeforeIrreflexive(a);
    }
  }

  ghost function SortedStrings(s: set<string>): (keys: seq<string>)
    ensures Lists(StringBefore, s, keys)
  {
    StringsOrdered(s);
    Listing(StringBefore, s)
  }

  method SortStrings(s: set<string>) returns (xs: seq<string>)
    ensures xs == SortedStrings(s)
  {
    StringsOrdered(s);
    xs := Arrange(StringBefore, s);
    ArrangesTotal(StringBefore, s, xs);
    ListingUnique(StringBefore, s, xs, SortedStrings(s));
  }
}
