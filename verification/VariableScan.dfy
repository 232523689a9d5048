/** The variables a plan's text refers to: every `${NAME}` that is not a JMeter function call. */
module VariableScan {
  import opened Wrappers
  import opened Text

  predicate NameStart(c: char) {
    Letter(c) || c == '_'
  }

  predicate NameChar(c: char) {
    NameStart(c) || Digit(c)
  }

  predicate Identifier(name: string) {
    name != "" && NameStart(name[0]) && forall c :: c in name ==> NameChar(c)
  }

  predicate VariableName(name: string) {
    Identifier(name) && !StartsWith(name, "__")
  }

  /** Letters, digits and underscores, not a digit first. */
  predicate IdentifierText(name: string) {
    && name != "" && !('0' <= name[0] <= '9')
    && forall c :: c in name ==> 'a' <= c <= 'z' || 'A' <= c <= 'Z' || '0' <= c <= '9' || c == '_'
  }

  lemma IdentifierIsText(name: string)
    ensures Identifier(name) <==> IdentifierText(name)
  {
    if name != "" {
      assert name[0] in name;
    }
  }

  /** `${name}` written out at position `i`. */
  predicate OccursAt(text: string, name: string, i: nat) {
    && i + |name| + 3 <= |text|
    && text[i] == '$' && text[i + 1] == '{'
    && text[i + 2..i + 2 + |name|] == name
    && text[i + 2 + |name|] == '}'
  }

  ghost predicate Refers(text: string, name: string) {
    VariableName(name) && exists i: nat :: OccursAt(text, name, i)
  }

  predicate WrittenAt(text: string, name: string, i: nat) {
    i + |name| + 3 <= |text| && text[i..i + |name| + 3] == "${" + name + "}"
  }

  /** A name that is no JMeter function, between `${` and `}` somewhere in the text. */
  ghost predicate RefersInText(text: string, name: string) {
    IdentifierText(name) && !("__" <= name) && exists i: nat :: WrittenAt(text, name, i)
  }

  lemma Inner(text: string, i: nat, n: nat)
    requires i + n + 3 <= |text|
    ensures text[i..i + n + 3][2..2 + n] == text[i + 2..i + 2 + n]
  {
    var a, b := text[i..i + n + 3][2..2 + n], text[i + 2..i + 2 + n];
    assert |a| == |b| && forall k :: 0 <= k < n ==> a[k] == b[k];
  }

  lemma OccursIsWritten(text: string, name: string, i: nat)
    ensures OccursAt(text, name, i) <==> WrittenAt(text, name, i)
  {
    if i + |name| + 3 <= |text| {
      var part, whole := text[i..i + |name| + 3], "${" + name + "}";
      assert part[0] == text[i] && part[1] == text[i + 1] && part[2 + |name|] == text[i + 2 + |name|];
      Inner(text, i, |name|);
      assert whole[0] == '$' && whole[1] == '{' && whole[2..2 + |name|] == name && whole[2 + |name|] == '}';
      assert part == [part[0]] + [part[1]] + part[2..2 + |name|] + [part[2 + |name|]];
    }
  }

  lemma RefersExactly(text: string, name: string)
    ensures Refers(text, name) <==> RefersInText(text, name)
  {
    IdentifierIsText(name);
    forall i: nat ensures OccursAt(text, name, i) <==> WrittenAt(text, name, i) {
      OccursIsWritten(text, name, i);
    }
    hide Identifier, IdentifierText, OccursAt, WrittenAt;
  }

  /** Where the run of name characters starting at `i` ends. */
  function RunEnd(text: string, i: nat): (end: nat)
    requires i <= |text|
    ensures i <= end <= |text|
    ensures forall k :: i <= k < end ==> NameChar(text[k])
    ensures end < |text| ==> !NameChar(text[end])
    decreases |text| - i
  {
    if i < |text| && NameChar(text[i]) then RunEnd(text, i + 1) else i
  }

  /** The greedy match at one position: the name it captures. */
  function MatchAt(text: string, i: nat): (name: Option<string>)
  {
    if i + 2 >= |text| || text[i] != '$' || text[i + 1] != '{' || !NameStart(text[i + 2]) then None else
    var end := RunEnd(text, i + 2);
    if StartsWith(text[i + 2..], "__") || end >= |text| || text[end] != '}' then None
    else Some(text[i + 2..end])
  }

  lemma SameUnderscores(text: string, name: string, i: nat)
    requires OccursAt(text, name, i)
    ensures StartsWith(text[i + 2..], "__") <==> StartsWith(name, "__")
  {
    var stop := i + 2 + |name|;
    assert forall k :: i + 2 <= k < stop ==> text[k] == name[k - i - 2];
    assert text[i + 2..][..|name|] == name;
    if |name| >= 2 {
      assert text[i + 2..][0] == name[0] && text[i + 2..][1] == name[1];
    } else {
      assert text[i + 2..][|name|] == '}';
    }
  }

  lemma MatchIsOccurrence(text: string, i: nat, name: string)
    ensures MatchAt(text, i) == Some(name) <==> VariableName(name) && OccursAt(text, name, i)
  {
    if MatchAt(text, i) == Some(name) {
      var end := RunEnd(text, i + 2);
      assert forall c :: c in name ==> exists k :: i + 2 <= k < end && text[k] == c;
      SameUnderscores(text, name, i);
    }
    if VariableName(name) && OccursAt(text, name, i) {
      var end := RunEnd(text, i + 2);
      var stop := i + 2 + |name|;
      assert forall k :: i + 2 <= k < stop ==> text[k] == name[k - i - 2] && name[k - i - 2] in name;
      assert end == stop;
      SameUnderscores(text, name, i);
    }
  }

  /** No occurrence starts inside another: nothing after the first character of one is a dollar sign. */
  lemma MatchesNeverOverlap(text: string, i: nat, j: nat)
    requires MatchAt(text, i).Some? && i < j <= RunEnd(text, i + 2)
    ensures MatchAt(text, j).None?
  {
  }

  method FindVariables(text: string) returns (names: set<string>)
    ensures forall name :: name in names <==> Refers(text, name)
    ensures forall name :: name in names <==> RefersInText(text, name)
  {
    names := {};
    var i := 0;
    while i < |text|
      invariant 0 <= i <= |text|
      invariant forall name :: name in names <==> exists j :: 0 <= j < i && MatchAt(text, j) == Some(name)
    {
      var m := MatchAt(text, i);
      if m.Some? {
        var end := RunEnd(text, i + 2);
        forall j | i < j <= end ensures MatchAt(text, j).None? {
          MatchesNeverOverlap(text, i, j);
        }
        names := names + {m.value};
        i := end + 1;
      } else {
        i := i + 1;
      }
    }
    forall name ensures name in names <==> Refers(text, name) {
      ScannedAll(text, name, names);
    }
    forall name ensures Refers(text, name) <==> RefersInText(text, name) {
      RefersExactly(text, name);
    }
  }

  lemma ScannedAll(text: string, name: string, names: set<string>)
    requires name in names <==> exists j :: 0 <= j < |text| && MatchAt(text, j) == Some(name)
    ensures name in names <==> Refers(text, name)
  {
    if name in names {
      var j :| 0 <= j < |text| && MatchAt(text, j) == Some(name);
      MatchIsOccurrence(text, j, name);
    }
    if Refers(text, name) {
      var i: nat :| OccursAt(text, name, i);
      MatchIsOccurrence(text, i, name);
    }
  }
}
