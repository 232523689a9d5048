/** Listing a finite set in the order a key gives it: what `ORDER BY` and `sorted` do. */
module Orders {

  /** `before` is a strict order in which any two different members of `s` are comparable. */
  ghost predicate OrderOn<T(!new)>(before: (T, T) -> bool, s: set<T>) {
    && (forall x :: x in s ==> !before(x, x))
    && (forall x, y :: x in s && y in s && x != y ==> before(x, y) || before(y, x))
    && (forall x, y, z :: x in s && y in s && z in s && before(x, y) && before(y, z) ==> before(x, z))
  }

  ghost predicate Strictly<T(!new)>(before: (T, T) -> bool, xs: seq<T>) {
    forall i, j :: 0 <= i < j < |xs| ==> before(xs[i], xs[j])
  }

  ghost predicate Lists<T(!new)>(before: (T, T) -> bool, s: set<T>, xs: seq<T>) {
    Strictly(before, xs) && (forall x :: x in xs <==> x in s)
  }

  lemma {:induction false} FirstExists<T(!new)>(before: (T, T) -> bool, s: set<T>) returns (first: T)
    requires OrderOn(before, s) && s != {}
    ensures first in s && forall x :: x in s && x != first ==> before(first, x)
    decreases s
  {
    var some :| some in s;
    if s == {some} {
      first := some;
    } else {
      var least := FirstExists(before, s - {some});
      first := if before(some, least) then some else least;
    }
  }

  /** The members of `s`, each once, in order. */
  ghost function Listing<T(!new)>(before: (T, T) -> bool, s: set<T>): (xs: seq<T>)
    requires OrderOn(before, s)
    ensures Lists(before, s, xs)
    decreases s
  {
    if s == {} then [] else
    FirstOf(before, s);
    var first :| first in s && forall x :: x in s && x != first ==> before(first, x);
    [first] + Listing(before, s - {first})
  }

  lemma FirstOf<T(!new)>(before: (T, T) -> bool, s: set<T>)
    requires OrderOn(before, s) && s != {}
    ensures exists first :: first in s && forall x :: x in s && x != first ==> before(first, x)
  {
    var first := FirstExists(before, s);
  }

  /** Only one sequence lists a set in a given order. */
  lemma {:induction false} ListingUnique<T(!new)>(before: (T, T) -> bool, s: set<T>, xs: seq<T>, ys: seq<T>)
    requires OrderOn(before, s) && Lists(before, s, xs) && Lists(before, s, ys)
    ensures xs == ys
    decreases |xs|
  {
    if xs == [] {
      assert forall i :: 0 <= i < |ys| ==> ys[i] in xs;
    } else {
      assert xs[0] in ys && ys[0] in xs by { assert xs[0] in s; }
      assert xs[0] == ys[0];
      var rest := s - {xs[0]};
      TailLists(before, s, xs);
      TailLists(before, s, ys);
      ListingUnique(before, rest, xs[1..], ys[1..]);
      assert xs == [xs[0]] + xs[1..] && ys == [ys[0]] + ys[1..];
    }
  }

  /** Everything after a row that comes after all of `xs` comes after all of `xs`. */
  lemma Joined<T(!new)>(before: (T, T) -> bool, xs: seq<T>, ys: seq<T>)
    requires Strictly(before, xs) && Strictly(before, ys)
    requires forall x, y :: x in xs && y in ys ==> before(x, y)
    ensures Strictly(before, xs + ys)
  {
    forall i, j | 0 <= i < j < |xs + ys| ensures before((xs + ys)[i], (xs + ys)[j]) {
      if i < |xs| <= j {
        assert (xs + ys)[i] in xs && (xs + ys)[j] in ys;
      }
    }
  }

  lemma TailLists<T(!new)>(before: (T, T) -> bool, s: set<T>, xs: seq<T>)
    requires OrderOn(before, s) && Lists(before, s, xs) && xs != []
    ensures Lists(before, s - {xs[0]}, xs[1..])
  {
    forall x ensures x in xs[1..] <==> x in s - {xs[0]} {
      if x in xs[1..] {
        var i :| 0 <= i < |xs| - 1 && xs[1..][i] == x;
        assert x == xs[i + 1] && before(xs[0], x);
      }
    }
  }

  /** Irreflexive and transitive on `s`; members may tie. */
  ghost predicate Ranks<T(!new)>(before: (T, T) -> bool, s: set<T>) {
    && (forall x :: x in s ==> !before(x, x))
    && (forall x, y, z :: x in s && y in s && z in s && before(x, y) && before(y, z) ==> before(x, z))
  }

  ghost predicate Distinct<T(!new)>(xs: seq<T>) {
    forall i, j :: 0 <= i < j < |xs| ==> xs[i] != xs[j]
  }

  lemma {:induction false} DistinctCount<T(!new)>(xs: seq<T>, s: set<T>)
    requires Distinct(xs) && forall x :: x in xs <==> x in s
    ensures |xs| == |s|
  {
    if xs == [] {
      assert s == {};
    } else {
      var front, last := xs[..|xs| - 1], xs[|xs| - 1];
      assert xs == front + [last];
      assert last !in front;
      DistinctCount(front, s - {last});
    }
  }

  /** What `sorted(set, key=...)` promises when keys may tie: each member once, none before one that ranks lower. */
  ghost predicate Arranges<T(!new)>(before: (T, T) -> bool, s: set<T>, xs: seq<T>) {
    && Distinct(xs)
    && (forall x :: x in xs <==> x in s)
    && (forall i, j :: 0 <= i < j < |xs| ==> !before(xs[j], xs[i]))
  }

  lemma {:induction false} MinimalExists<T(!new)>(before: (T, T) -> bool, s: set<T>) returns (least: T)
    requires Ranks(before, s) && s != {}
    ensures least in s && forall y :: y in s ==> !before(y, least)
    decreases s
  {
    var some :| some in s;
    if s == {some} {
      least := some;
    } else {
      var l := MinimalExists(before, s - {some});
      least := if before(some, l) then some else l;
      forall y | y in s ensures !before(y, least) {
        if y in s - {some} {
          assert !before(y, l);
        }
      }
    }
  }

  method Arrange<T(!new,==)>(before: (T, T) -> bool, s: set<T>) returns (xs: seq<T>)
    requires Ranks(before, s)
    ensures Arranges(before, s, xs)
  {
    xs := [];
    var rest := s;
    while rest != {}
      invariant rest <= s
      invariant forall x :: x in xs <==> x in s - rest
      invariant Distinct(xs)
      invariant forall i, j :: 0 <= i < j < |xs| ==> !before(xs[j], xs[i])
      invariant forall x, y :: x in xs && y in rest ==> !before(y, x)
      decreases rest
    {
      ghost var some := MinimalExists(before, rest);
      var least :| least in rest && forall y :: y in rest ==> !before(y, least);
      assert least !in xs;
      xs := xs + [least];
      rest := rest - {least};
    }
  }

  lemma ArrangesTotal<T(!new)>(before: (T, T) -> bool, s: set<T>, xs: seq<T>)
    requires OrderOn(before, s) && Arranges(before, s, xs)
    ensures Lists(before, s, xs)
  {
    forall i, j | 0 <= i < j < |xs| ensures before(xs[i], xs[j]) {
      assert xs[i] in s && xs[j] in s;
    }
  }

  // ---- Picking members in order -------------------------------------------------------------

  /** These are the places of the members to keep, all of them and in order. */
  ghost predicate Places<T(!new)>(at: seq<nat>, xs: seq<T>, keep: T -> bool) {
    && (forall i, j :: 0 <= i < j < |at| ==> at[i] < at[j])
    && (forall i :: 0 <= i < |at| ==> at[i] < |xs| && keep(xs[at[i]]))
    && (forall k :: 0 <= k < |xs| && keep(xs[k]) ==> k in at)
  }

  ghost predicate PicksAt<T(!new), U(!new)>(at: seq<nat>, xs: seq<T>, keep: T -> bool, out: T -> U, ys: seq<U>) {
    Places(at, xs, keep) && |at| == |ys| && forall i :: 0 <= i < |at| ==> at[i] < |xs| && ys[i] == out(xs[at[i]])
  }

  /** What is made of the members to keep, one for each place, in their order. */
  ghost predicate Picks<T(!new), U(!new)>(xs: seq<T>, keep: T -> bool, out: T -> U, ys: seq<U>) {
    exists at: seq<nat> :: PicksAt(at, xs, keep, out, ys)
  }

  lemma PicksNone<T(!new), U(!new)>(keep: T -> bool, out: T -> U)
    ensures Picks([], keep, out, [])
  {
    var none: seq<nat> := [];
    assert PicksAt(none, [], keep, out, []);
  }

  lemma PicksOne<T(!new), U(!new)>(xs: seq<T>, x: T, keep: T -> bool, out: T -> U, ys: seq<U>)
    requires Picks(xs, keep, out, ys)
    ensures Picks(xs + [x], keep, out, if keep(x) then ys + [out(x)] else ys)
  {
    var at: seq<nat> :| PicksAt(at, xs, keep, out, ys);
    var n := |xs|;
    if keep(x) {
      PlaceAdded(at, xs, x, keep);
      assert PicksAt(at + [n], xs + [x], keep, out, ys + [out(x)]);
    } else {
      PlaceKept(at, xs, x, keep);
      assert PicksAt(at, xs + [x], keep, out, ys);
    }
  }

  lemma {:induction false} PlacesOnce<T(!new)>(at: seq<nat>, at': seq<nat>, xs: seq<T>, keep: T -> bool)
    requires Places(at, xs, keep) && Places(at', xs, keep)
    ensures at == at'
  {
    var before, s := (a: nat, b: nat) => a < b, set k | k in at;
    assert forall k :: k in at' <==> k in at;
    assert OrderOn(before, s) && Lists(before, s, at) && Lists(before, s, at');
    ListingUnique(before, s, at, at');
  }

  /** There is one way to pick. */
  lemma PickedOnce<T(!new), U(!new)>(xs: seq<T>, keep: T -> bool, out: T -> U, ys: seq<U>, ys': seq<U>)
    requires Picks(xs, keep, out, ys) && Picks(xs, keep, out, ys')
    ensures ys == ys'
  {
    var at: seq<nat> :| PicksAt(at, xs, keep, out, ys);
    var at': seq<nat> :| PicksAt(at', xs, keep, out, ys');
    PlacesOnce(at, at', xs, keep);
  }

  lemma PlaceAdded<T(!new)>(at: seq<nat>, xs: seq<T>, x: T, keep: T -> bool)
    requires Places(at, xs, keep) && keep(x)
    ensures Places(at + [|xs|], xs + [x], keep)
  {
    var all, more := xs + [x], at + [|xs|];
    forall k | 0 <= k < |all| && keep(all[k]) ensures k in more {
      if k < |xs| {
        assert k in at;
        var i :| 0 <= i < |at| && at[i] == k;
        assert more[i] == k;
      } else {
        assert more[|at|] == k;
      }
    }
  }

  lemma PlaceKept<T(!new)>(at: seq<nat>, xs: seq<T>, x: T, keep: T -> bool)
    requires Places(at, xs, keep) && !keep(x)
    ensures Places(at, xs + [x], keep)
  {
  }
}
