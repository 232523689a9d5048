/** The string operations the admission rules are written in, over ASCII text. */
module Text {

  predicate StartsWith(s: string, prefix: string) {
    prefix <= s
  }

  predicate EndsWith(s: string, suffix: string) {
    |suffix| <= |s| && s[|s| - |suffix|..] == suffix
  }

  predicate Mentions(s: string, mark: string) {
    exists i :: 0 <= i <= |s| && mark <= s[i..]
  }

  ghost predicate HasDollarBrace(s: string) {
    exists i :: 0 <= i < |s| - 1 && s[i] == '$' && s[i + 1] == '{'
  }

  lemma MentionsIs(s: string)
    ensures Mentions(s, "${") <==> HasDollarBrace(s)
  {
    if i :| 0 <= i <= |s| && "${" <= s[i..] {
      assert s[i] == s[i..][0] == '$' && s[i + 1] == s[i..][1] == '{';
    }
    if i :| 0 <= i < |s| - 1 && s[i] == '$' && s[i + 1] == '{' {
      assert s[i..][..2] == "${";
    }
  }

  function RemovePrefix(s: string, prefix: string): string {
    if StartsWith(s, prefix) then s[|prefix|..] else s
  }

  predicate Digit(c: char) {
    '0' <= c <= '9'
  }

  predicate Letter(c: char) {
    'a' <= c <= 'z' || 'A' <= c <= 'Z'
  }

  predicate Space(c: char) {
    c == ' ' || 9 <= c as int <= 13 || 28 <= c as int <= 31
  }

  function LowerChar(c: char): char {
    if 'A' <= c <= 'Z' then (c as int + 32) as char else c
  }

  function Lower(s: string): (t: string)
    ensures |t| == |s|
  {
    seq(|s|, i requires 0 <= i < |s| => LowerChar(s[i]))
  }

  function StripLeft(s: string): (t: string)
    ensures |t| <= |s| && EndsWith(s, t) && (t != "" ==> !Space(t[0]))
  {
    if s != "" && Space(s[0]) then StripLeft(s[1..]) else s
  }

  function StripRight(s: string): (t: string)
    ensures t <= s && (t != "" ==> !Space(t[|t| - 1]))
  {
    if s != "" && Space(s[|s| - 1]) then StripRight(s[..|s| - 1]) else s
  }

  function Strip(s: string): string {
    StripRight(StripLeft(s))
  }

  const UPPER := "ABCDEFGHIJKLMNOPQRSTUVWXYZ"
  const LOWER := "abcdefghijklmnopqrstuvwxyz"

  /** Each letter of the one alphabet becomes its letter of the other, and nothing else changes. */
  lemma LowerExactly(s: string, i: nat)
    requires i < |s|
    ensures forall k :: 0 <= k < 26 && s[i] == UPPER[k] ==> Lower(s)[i] == LOWER[k]
    ensures s[i] !in UPPER ==> Lower(s)[i] == s[i]
  {
    assert |UPPER| == |LOWER| == 26;
    assert forall k :: 0 <= k < 26 ==> UPPER[k] as int == 65 + k && LOWER[k] as int == 97 + k;
    if 'A' <= s[i] <= 'Z' {
      assert UPPER[s[i] as int - 65] == s[i];
    }
  }

  const WHITE: seq<int> := [9, 10, 11, 12, 13, 28, 29, 30, 31, 32]

  predicate White(c: char) {
    c as int in WHITE
  }

  lemma SpaceIsWhite(c: char)
    ensures Space(c) <==> White(c)
  {
    assert WHITE[0] == 9 && WHITE[1] == 10 && WHITE[2] == 11 && WHITE[3] == 12 && WHITE[4] == 13;
    assert WHITE[5] == 28 && WHITE[6] == 29 && WHITE[7] == 30 && WHITE[8] == 31 && WHITE[9] == 32;
  }

  /** White characters all the way around, and none at either end of what is left. */
  ghost predicate TrimmedTo(s: string, i: int, j: int) {
    && 0 <= i <= j <= |s|
    && (forall k :: 0 <= k < i || j <= k < |s| ==> White(s[k]))
    && (i < j ==> !White(s[i]) && !White(s[j - 1]))
  }

  /** Stripping takes the white characters off both ends, and nothing else. */
  lemma StripExactly(s: string) returns (i: int, j: int)
    ensures TrimmedTo(s, i, j) && Strip(s) == s[i..j]
  {
    hide White, Space, StripLeft, StripRight;
    i := LeftExactly(s);
    var rest := s[i..];
    var n := RightExactly(rest);
    j := i + n;
    assert s[i..j] == rest[..n] == Strip(s);
    forall k | j <= k < |s| ensures White(s[k]) {
      assert s[k] == rest[k - i];
    }
    if i < j {
      assert StripLeft(s)[0] == s[i] && StripRight(rest)[n - 1] == s[j - 1];
      SpaceIsWhite(s[i]);
      SpaceIsWhite(s[j - 1]);
    }
  }

  lemma {:induction false} LeftExactly(s: string) returns (i: nat)
    ensures i <= |s| && StripLeft(s) == s[i..] && forall k :: 0 <= k < i ==> White(s[k])
  {
    hide White;
    i := 0;
    if s != "" && Space(s[0]) {
      var n := LeftExactly(s[1..]);
      i := n + 1;
      SpaceIsWhite(s[0]);
      forall k | 0 <= k < i ensures White(s[k]) {
        assert k > 0 ==> s[k] == s[1..][k - 1];
      }
    }
  }

  lemma {:induction false} RightExactly(s: string) returns (n: nat)
    ensures n <= |s| && StripRight(s) == s[..n] && forall k :: n <= k < |s| ==> White(s[k])
  {
    hide White;
    n := |s|;
    if s != "" && Space(s[|s| - 1]) {
      n := RightExactly(s[..|s| - 1]);
      SpaceIsWhite(s[|s| - 1]);
      forall k | n <= k < |s| ensures White(s[k]) {
        assert k < |s| - 1 ==> s[k] == s[..|s| - 1][k];
      }
    }
  }

  /** There is only one way to do that. */
  lemma TrimmedOnce(s: string, i: int, j: int, i': int, j': int)
    requires TrimmedTo(s, i, j) && TrimmedTo(s, i', j')
    ensures s[i..j] == s[i'..j']
  {
    hide White;
    if i < j && i' < j' {
      assert i == i' && j == j';
    }
  }

  /** The pieces between separators; one more piece than there are separators. */
  function Split(s: string, sep: char): (parts: seq<string>)
    ensures |parts| >= 1
    ensures forall p :: p in parts ==> sep !in p
  {
    if s == "" then [""] else Grow(s[0], Split(s[1..], sep), sep)
  }

  function Grow(c: char, parts: seq<string>, sep: char): (grown: seq<string>)
    requires parts != []
  {
    if c == sep then [""] + parts else [[c] + parts[0]] + parts[1..]
  }

  lemma GrowConcat(c: char, xs: seq<string>, ys: seq<string>, sep: char)
    requires xs != []
    ensures Grow(c, xs + ys, sep) == Grow(c, xs, sep) + ys
  {
    assert (xs + ys)[1..] == xs[1..] + ys;
  }

  function Join(parts: seq<string>, sep: char): string
    requires parts != []
  {
    if |parts| == 1 then parts[0] else parts[0] + [sep] + Join(parts[1..], sep)
  }

  lemma {:induction false} JoinSplit(s: string, sep: char)
    ensures Join(Split(s, sep), sep) == s
  {
    if s != "" {
      JoinSplit(s[1..], sep);
      var rest := Split(s[1..], sep);
      assert s == [s[0]] + s[1..];
      assert Grow(s[0], rest, sep)[1..] == if s[0] == sep then rest else rest[1..];
    }
  }

  lemma {:induction false} SplitAtSeparator(x: string, y: string, sep: char)
    ensures Split(x + [sep] + y, sep) == Split(x, sep) + Split(y, sep)
  {
    var s := x + [sep] + y;
    if x == "" {
      assert s == [sep] + y && s[1..] == y;
    } else {
      assert s[1..] == x[1..] + [sep] + y;
      SplitAtSeparator(x[1..], y, sep);
      GrowConcat(x[0], Split(x[1..], sep), Split(y, sep), sep);
    }
  }

  lemma {:induction false} SplitWithout(s: string, sep: char)
    requires sep !in s
    ensures Split(s, sep) == [s]
  {
    if s != "" {
      SplitWithout(s[1..], sep);
      assert s == [s[0]] + s[1..];
    }
  }

  lemma {:induction false} JoinConcat(xs: seq<string>, ys: seq<string>, sep: char)
    requires xs != [] && ys != []
    ensures Join(xs + ys, sep) == Join(xs, sep) + [sep] + Join(ys, sep)
  {
    if |xs| == 1 {
      assert (xs + ys)[1..] == ys;
    } else {
      assert (xs + ys)[1..] == xs[1..] + ys;
      JoinConcat(xs[1..], ys, sep);
      assert xs[0] + [sep] + (Join(xs[1..], sep) + [sep] + Join(ys, sep))
        == xs[0] + [sep] + Join(xs[1..], sep) + [sep] + Join(ys, sep);
    }
  }

  predicate ListSuffix(xs: seq<string>, ys: seq<string>) {
    |xs| <= |ys| && ys[|ys| - |xs|..] == xs
  }

  /** The domain-suffix rule: the host itself, or anything ending in a dot and the suffix. */
  predicate UnderDomain(host: string, suffix: string) {
    host == suffix || EndsWith(host, "." + suffix)
  }

  /** The rule on characters is the rule on whole labels, for all strings. */
  lemma DomainIsLabels(host: string, suffix: string)
    ensures UnderDomain(host, suffix) <==> ListSuffix(Split(suffix, '.'), Split(host, '.'))
  {
    if EndsWith(host, "." + suffix) {
      var front := LabelsBeforeSuffix(host, suffix);
    }
    if ListSuffix(Split(suffix, '.'), Split(host, '.')) {
      LabelSuffixIsDomain(host, suffix, Split(host, '.'), Split(suffix, '.'));
    }
  }

  lemma LabelSuffixIsDomain(host: string, suffix: string, hs: seq<string>, ss: seq<string>)
    requires hs == Split(host, '.') && ss == Split(suffix, '.') && ListSuffix(ss, hs)
    ensures UnderDomain(host, suffix)
  {
    var xs := hs[..|hs| - |ss|];
    JoinSplit(host, '.');
    JoinSplit(suffix, '.');
    assert hs == xs + ss;
    if xs == [] {
      assert hs == ss;
    } else {
      JoinConcat(xs, ss, '.');
      assert host == Join(xs, '.') + ("." + suffix);
    }
  }

  lemma LabelsBeforeSuffix(host: string, suffix: string) returns (front: string)
    requires EndsWith(host, "." + suffix)
    ensures host == front + "." + suffix
    ensures Split(host, '.') == Split(front, '.') + Split(suffix, '.')
  {
    front := host[..|host| - |suffix| - 1];
    assert host == front + ("." + suffix);
    SplitAtSeparator(front, suffix, '.');
    assert front + ['.'] + suffix == host;
  }
}
