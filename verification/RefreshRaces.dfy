/** When a token is used twice: exactly when two SELECTs precede both commits. */
module RefreshRaces {
  import opened Wrappers
  import opened Tables
  import opened RefreshTokens
  import opened RefreshProtocol
  import opened RefreshAlone
  import opened RefreshTracking

  // ---- Used twice ---------------------------------------------------------------------------

  /** Call `k` of the transaction rotates this token: its SELECT has found it good, or it has been answered. */
  ghost predicate Used(s: State, t: TxnId, k: nat, raw: string) {
    && t in s.txns && !s.txns[t].phase.RolledBack?
    && k < |s.txns[t].calls| && s.txns[t].calls[k].Rotate? && s.txns[t].calls[k].raw == raw
    && (|| (k == s.txns[t].done
            && (s.txns[t].phase.ToReplace? || (s.txns[t].phase.ToRecord? && s.txns[t].phase.answer.Rotated?)))
        || (k < |s.txns[t].answers| && s.txns[t].answers[k].Rotated?))
  }

  /** The SELECT of that call has found the token good and the transaction has not ended. */
  ghost predicate HasRead(s: State, t: TxnId, k: nat, raw: string) {
    Used(s, t, k, raw) && !Over(s.txns[t])
  }

  /** The call was answered with a new token, and the transaction has committed. */
  ghost predicate Succeeded(s: State, t: TxnId, k: nat, raw: string) {
    && t in s.txns && s.txns[t].phase.Committed?
    && k < |s.txns[t].calls| && s.txns[t].calls[k].Rotate? && s.txns[t].calls[k].raw == raw
    && k < |s.txns[t].answers| && s.txns[t].answers[k].Rotated?
  }

  /** Once a committed token is used up no SELECT finds it, whatever its own transaction has written. */
  lemma NotLiveAgain(s: State, t: TxnId, raw: string)
    requires Inv(s) && t in s.txns && s.txns[t].phase.Next? && UsedUp(Public(s), Sha256(raw))
    ensures Live(View(s, s.txns[t]), s.txns[t].scope, Sha256(raw)) == {}
  {
    var x, h := s.txns[t], Sha256(raw);
    assert TxnOk(s, x);
    forall id | id in View(s, x).families ensures View(s, x).families[id].current != h {
      if id in x.families.puts {
        assert RowOk(s, x, id);
        assert h in x.history.puts ==> HashOk(s, x, h);
      }
    }
  }

  /** The step that makes a call use its token is its SELECT, and the SELECT found it. */
  lemma FirstUse(s: State, t: TxnId, now: Time, pick: Option<FamilyId>, k: nat, raw: string)
    requires t in s.txns && Tracks(s, s.txns[t]) && !Used(s, t, k, raw) && Used(RunStep(s, t, now, pick), t, k, raw)
    ensures var x := s.txns[t];
      && x.phase.Next? && k == x.done < |x.calls| && x.calls[k].Rotate? && x.calls[k].raw == raw
      && pick.Some? && pick.value in Live(View(s, x), x.scope, Sha256(raw))
  {
    hide View, FamilyLocked, HashLocked, FamilyContaining, Spent, Live;
  }

  /** A step of another transaction, or an end, makes no call use its token. */
  lemma OthersUseNothing(s: State, a: Action, t: TxnId, k: nat, raw: string)
    requires !(a.Run? && a.t == t && t in s.txns) && !Used(s, t, k, raw)
    ensures !Used(Step(s, a), t, k, raw)
  {
    if a.Run? && a.t in s.txns {
      RunOnlyOwn(s, a.t, a.now, a.pick);
      hide RunStep;
    }
  }

  lemma UsesNoMore(s: State, a: Action, t: TxnId, k: nat, raw: string)
    requires Tracked(s) && UsedUp(Public(s), Sha256(raw)) && !Used(s, t, k, raw)
    ensures !Used(Step(s, a), t, k, raw)
  {
    if a.Run? && a.t == t && t in s.txns {
      assert Tracks(s, s.txns[t]);
      hide Tracks, RunStep, Live;
      if Used(RunStep(s, t, a.now, a.pick), t, k, raw) {
        FirstUse(s, t, a.now, a.pick, k, raw);
        NotLiveAgain(s, t, raw);
      }
    } else {
      OthersUseNothing(s, a, t, k, raw);
    }
  }

  lemma UsedStays(s: State, a: Action, t: TxnId, k: nat, raw: string)
    requires Tracked(s) && Used(s, t, k, raw)
    ensures t in Step(s, a).txns
    ensures Used(Step(s, a), t, k, raw) || Step(s, a).txns[t].phase.RolledBack?
  {
    assert Tracks(s, s.txns[t]);
    hide Inv, Spent;
    if a.Run? && a.t in s.txns {
      if a.t == t {
        RunStaysUsed(s, t, a.now, a.pick, k, raw);
      } else {
        RunOnlyOwn(s, a.t, a.now, a.pick);
        hide RunStep;
      }
    }
  }

  lemma RunStaysUsed(s: State, t: TxnId, now: Time, pick: Option<FamilyId>, k: nat, raw: string)
    requires Used(s, t, k, raw) && |s.txns[t].answers| == s.txns[t].done
    ensures t in RunStep(s, t, now, pick).txns
    ensures Used(RunStep(s, t, now, pick), t, k, raw) || RunStep(s, t, now, pick).txns[t].phase.RolledBack?
  {
    hide View, FamilyLocked, HashLocked, FamilyContaining, Live;
  }

  /** After `m` actions both SELECTs have found the token good and neither transaction has ended. */
  ghost predicate BothRead(s0: State, run: seq<Action>, m: nat, t: TxnId, k: nat, u: TxnId, l: nat, raw: string) {
    m <= |run| && HasRead(Exec(s0, run[..m]), t, k, raw) && HasRead(Exec(s0, run[..m]), u, l, raw)
  }

  lemma BothReadEarlier(s0: State, front: seq<Action>, run: seq<Action>, m: nat, t: TxnId, k: nat, u: TxnId, l: nat,
                        raw: string)
    requires BothRead(s0, front, m, t, k, u, l, raw) && front <= run
    ensures BothRead(s0, run, m, t, k, u, l, raw)
  {
    hide HasRead, Exec;
    assert front[..m] == run[..m];
  }

  lemma NobodyYet(s0: State, t: TxnId, k: nat, raw: string)
    requires Init(s0)
    ensures !Used(Exec(s0, []), t, k, raw)
  {
  }

  /** If both calls use the token at the end of a run, there was such a moment. */
  lemma {:induction false} MomentOfBoth(s0: State, run: seq<Action>, t: TxnId, k: nat, u: TxnId, l: nat, raw: string)
    returns (m: nat)
    requires Init(s0) && t != u && Used(Exec(s0, run), t, k, raw) && Used(Exec(s0, run), u, l, raw)
    ensures BothRead(s0, run, m, t, k, u, l, raw)
  {
    hide Exec, Step, Used, HasRead, Tracked, Init;
    if run == [] {
      NobodyYet(s0, t, k, raw);
    } else {
      var front, last := run[..|run| - 1], run[|run| - 1];
      assert run == front + [last];
      Then(s0, front, last);
      EveryRunTracked(s0, front);
      var before := Exec(s0, front);
      if Used(before, t, k, raw) && Used(before, u, l, raw) {
        m := MomentOfBoth(s0, front, t, k, u, l, raw);
        BothReadEarlier(s0, front, run, m, t, k, u, l, raw);
      } else {
        m := |run|;
        assert run[..m] == run;
        if Used(before, t, k, raw) {
          LateUse(before, last, u, l, t, k, raw);
        } else {
          LateUse(before, last, t, k, u, l, raw);
        }
      }
    }
  }

  /** A call that begins to use a token another has used finds the other transaction still open. */
  lemma LateUse(s: State, a: Action, t: TxnId, k: nat, u: TxnId, l: nat, raw: string)
    requires Tracked(s) && t != u && !Used(s, t, k, raw)
    requires Used(Step(s, a), t, k, raw) && Used(Step(s, a), u, l, raw)
    ensures HasRead(Step(s, a), t, k, raw) && HasRead(Step(s, a), u, l, raw)
  {
    if !(a.Run? && a.t == t && t in s.txns) {
      OthersUseNothing(s, a, t, k, raw);
    } else {
      assert Tracks(s, s.txns[t]);
      FirstUse(s, t, a.now, a.pick, k, raw);
      RunOnlyOwn(s, t, a.now, a.pick);
      RunUsesOpenly(s, t, a.now, a.pick, k, raw);
      assert u in s.txns && Tracks(s, s.txns[u]);
      hide RunStep, CallOk;
      assert Step(s, a).txns[u] == s.txns[u];
      if s.txns[u].phase.Committed? {
        assert Spent(s, s.txns[u], Sha256(raw));
        UsesNoMore(s, a, t, k, raw);
      }
    }
  }

  lemma RunUsesOpenly(s: State, t: TxnId, now: Time, pick: Option<FamilyId>, k: nat, raw: string)
    requires t in s.txns && Used(RunStep(s, t, now, pick), t, k, raw) && s.txns[t].phase.Next?
    ensures !Over(RunStep(s, t, now, pick).txns[t])
  {
    hide View, FamilyLocked, HashLocked, FamilyContaining, Live;
  }

  lemma {:induction false} ReadingLeadsOn(s0: State, run: seq<Action>, m: nat, t: TxnId, k: nat, raw: string)
    requires Init(s0) && m <= |run| && Used(Exec(s0, run[..m]), t, k, raw)
    ensures t in Exec(s0, run).txns
    ensures Used(Exec(s0, run), t, k, raw) || Exec(s0, run).txns[t].phase.RolledBack?
    decreases |run|
  {
    if m == |run| {
      assert run[..m] == run;
    } else {
      var front, last := run[..|run| - 1], run[|run| - 1];
      assert front[..m] == run[..m];
      ReadingLeadsOn(s0, front, m, t, k, raw);
      EveryRunTracked(s0, front);
      if Used(Exec(s0, front), t, k, raw) {
        UsedStays(Exec(s0, front), last, t, k, raw);
      } else {
        RolledBackStays(Exec(s0, front), last, t);
      }
    }
  }

  lemma RolledBackStays(s: State, a: Action, t: TxnId)
    requires t in s.txns && s.txns[t].phase.RolledBack?
    ensures t in Step(s, a).txns && Step(s, a).txns[t].phase.RolledBack?
  {
    if a.Run? && a.t in s.txns && a.t != t {
      RunOnlyOwn(s, a.t, a.now, a.pick);
      hide RunStep;
    }
  }

  /** Of two committed transactions, a call of each was answered with a new token for the same old one if and only if
      there was a moment at which both SELECTs had found that token good and neither transaction had ended: each SELECT
      before the other's commit. Otherwise it is used once. */
  lemma UsedTwiceExactly(s0: State, run: seq<Action>, t: TxnId, k: nat, u: TxnId, l: nat, raw: string)
    requires Init(s0) && t != u
    requires var s := Exec(s0, run);
      t in s.txns && s.txns[t].phase.Committed? && u in s.txns && s.txns[u].phase.Committed?
    ensures var s := Exec(s0, run);
      (Succeeded(s, t, k, raw) && Succeeded(s, u, l, raw)) <==> (exists m: nat :: BothRead(s0, run, m, t, k, u, l, raw))
  {
    var s := Exec(s0, run);
    assert Used(s, t, k, raw) <==> Succeeded(s, t, k, raw);
    assert Used(s, u, l, raw) <==> Succeeded(s, u, l, raw);
    hide Exec, Step, Used, Succeeded, Init;
    if Succeeded(s, t, k, raw) && Succeeded(s, u, l, raw) {
      var m := MomentOfBoth(s0, run, t, k, u, l, raw);
    }
    if m: nat :| BothRead(s0, run, m, t, k, u, l, raw) {
      ReadingLeadsOn(s0, run, m, t, k, raw);
      ReadingLeadsOn(s0, run, m, u, l, raw);
    }
  }

  lemma AnswersAreDone(s: State, t: TxnId)
    requires Tracked(s) && t in s.txns
    ensures |s.txns[t].answers| == s.txns[t].done
  {
    assert Tracks(s, s.txns[t]);
  }

  lemma RunAnswers(s: State, t: TxnId, now: Time, pick: Option<FamilyId>)
    requires t in s.txns
    ensures t in RunStep(s, t, now, pick).txns
    ensures var x, y := s.txns[t], RunStep(s, t, now, pick).txns[t];
      && y.calls == x.calls
      && (y.answers == x.answers
          || (|y.answers| == |x.answers| + 1 && y.answers[..|x.answers|] == x.answers && !y.phase.ToReplace?))
  {
    hide View, FamilyLocked, HashLocked, FamilyContaining, Live;
  }

  lemma StepAnswers(s: State, a: Action, t: TxnId)
    requires t in s.txns
    ensures t in Step(s, a).txns && Step(s, a).txns[t].calls == s.txns[t].calls
    ensures s.txns[t].answers <= Step(s, a).txns[t].answers
  {
    if a.Run? && a.t in s.txns {
      RunAnswers(s, a.t, a.now, a.pick);
      RunOnlyOwn(s, a.t, a.now, a.pick);
      hide RunStep;
    }
  }

  /** Call `k` was answered with a new token, and a later call of the transaction rotates the same old one. */
  ghost predicate Again(s: State, t: TxnId, k: nat, l: nat, raw: string) {
    && t in s.txns && k < |s.txns[t].answers| && s.txns[t].answers[k].Rotated?
    && k < |s.txns[t].calls| && s.txns[t].calls[k].Rotate? && s.txns[t].calls[k].raw == raw
    && Used(s, t, l, raw)
  }

  /** What a transaction has used up it does not find live, whatever else it has written. */
  lemma SpentIsNotLive(s: State, t: TxnId, k: nat, raw: string)
    requires Tracked(s) && t in s.txns && s.txns[t].phase.Next? && k < |s.txns[t].answers|
    requires s.txns[t].answers[k].Rotated?
    requires k < |s.txns[t].calls| && s.txns[t].calls[k].Rotate? && s.txns[t].calls[k].raw == raw
    ensures Live(View(s, s.txns[t]), s.txns[t].scope, Sha256(raw)) == {}
  {
    var x, h := s.txns[t], Sha256(raw);
    assert Tracks(s, x);
    assert Spent(s, x, h);
    ViewStructured(s, t);
    forall id | id in View(s, x).families ensures View(s, x).families[id].current != h {
    }
  }

  lemma AgainImpossible(s: State, a: Action, t: TxnId, k: nat, l: nat, raw: string)
    requires Tracked(s) && k < l && !Again(s, t, k, l, raw)
    ensures !Again(Step(s, a), t, k, l, raw)
  {
    if Used(s, t, l, raw) {
      AnswersAreDone(s, t);
      StepAnswers(s, a, t);
      hide Step;
    } else if !(a.Run? && a.t == t && t in s.txns) {
      OthersUseNothing(s, a, t, l, raw);
      hide Step;
    } else if Again(Step(s, a), t, k, l, raw) {
      AnswersAreDone(s, t);
      assert Tracks(s, s.txns[t]);
      hide RunStep, Tracked, Tracks;
      FirstUse(s, t, a.now, a.pick, l, raw);
      RunAnswers(s, t, a.now, a.pick);
      SpentIsNotLive(s, t, k, raw);
    }
  }

  /** Nor can one transaction use a token twice. */
  lemma {:induction false} OnceWithinOne(s0: State, run: seq<Action>, t: TxnId, k: nat, l: nat, raw: string)
    requires Init(s0) && k < l
    ensures !(Succeeded(Exec(s0, run), t, k, raw) && Succeeded(Exec(s0, run), t, l, raw))
    ensures !Again(Exec(s0, run), t, k, l, raw)
  {
    if run != [] {
      OnceWithinOne(s0, run[..|run| - 1], t, k, l, raw);
      EveryRunTracked(s0, run[..|run| - 1]);
      AgainImpossible(Exec(s0, run[..|run| - 1]), run[|run| - 1], t, k, l, raw);
    }
  }

  // ---- And nothing stands in the way --------------------------------------------------------

  lemma {:induction false} ExecOn(s: State, first: seq<Action>, second: seq<Action>)
    ensures Exec(s, first + second) == Exec(Exec(s, first), second)
  {
    if second == [] {
      assert first + second == first;
    } else {
      var front := second[..|second| - 1];
      ExecOn(s, first, front);
      assert (first + second)[..|first + second| - 1] == first + front;
    }
  }

  /** The token the call is to be given has been seen by neither transaction, nor in any committed state. */
  ghost predicate Unseen(s: State, t: TxnId, k: nat, u: TxnId)
    requires t in s.txns && u in s.txns && k < |s.txns[t].calls| && s.txns[t].calls[k].Rotate?
  {
    var h := Sha256(s.txns[t].calls[k].newRaw);
    k == s.txns[t].done ==> h !in View(s, s.txns[t]).history && h !in s.txns[u].history.puts
  }

  /** The call that read is the transaction's current one, or its last so far. */
  ghost predicate Current(x: Txn, k: nat) {
    k == x.done || x.phase.Next?
  }

  ghost predicate OnlyChanges(s: State, s': State, t: TxnId) {
    t in s.txns && s'.txns.Keys == s.txns.Keys && forall v :: v in s.txns && v != t ==> s'.txns[v] == s.txns[v]
  }

  /** Every hash committed meanwhile is one this transaction saw, or its new one. */
  ghost predicate AddsOnly(s: State, s': State, t: TxnId, k: nat)
    requires t in s.txns && k < |s.txns[t].calls| && s.txns[t].calls[k].Rotate?
  {
    forall h :: h in s'.history ==>
      h in View(s, s.txns[t]).history || (k == s.txns[t].done && h == Sha256(s.txns[t].calls[k].newRaw))
  }

  lemma CommitSucceeds(s: State, t: TxnId, k: nat, raw: string)
    requires HasRead(s, t, k, raw) && s.txns[t].phase.Next?
    ensures var s' := Commit(s, t); Succeeded(s', t, k, raw) && OnlyChanges(s, s', t) && AddsOnly(s, s', t, k)
  {
    hide See;
  }

  lemma CommitFinishes(s: State, t: TxnId, k: nat, raw: string)
    requires HasRead(s, t, k, raw) && s.txns[t].phase.Next?
    ensures var s' := Exec(s, [End(t, true)]);
      Succeeded(s', t, k, raw) && OnlyChanges(s, s', t) && AddsOnly(s, s', t, k)
  {
    assert Exec(s, []) == s;
    hide Exec, RunStep, Succeeded, OnlyChanges, AddsOnly, View, Commit;
    CommitSucceeds(s, t, k, raw);
    Then(s, [], End(t, true));
    assert [] + [End(t, true)] == [End(t, true)];
  }

  /** The INSERT into history goes through, and the call is answered. */
  lemma RecordMoves(s: State, t: TxnId, k: nat, raw: string)
    requires Tracked(s) && HasRead(s, t, k, raw) && s.txns[t].phase.ToRecord? && k == s.txns[t].done
    requires var h := Sha256(s.txns[t].calls[k].newRaw); h !in View(s, s.txns[t]).history && !HashLocked(s, t, h)
    ensures var s1 := RunStep(s, t, 0, None);
      && HasRead(s1, t, k, raw) && s1.txns[t].phase.Next? && s1.txns[t].done != k
      && s1.txns[t].calls == s.txns[t].calls && s1 == With(s, t, s1.txns[t])
      && (forall h :: h in View(s1, s1.txns[t]).history ==>
            h in View(s, s.txns[t]).history || h == Sha256(s.txns[t].calls[k].newRaw))
  {
    var x, view := s.txns[t], View(s, s.txns[t]);
    assert Tracks(s, x);
    hide Inv, Spent;
    RecordAlone(s, t, x, view);
    hide View, HashLocked, RecordStep, Tracks;
    assert RunStep(s, t, 0, None) == RecordStep(s, t);
  }

  /** The UPDATE goes through. */
  lemma ReplaceMoves(s: State, t: TxnId, k: nat, raw: string)
    requires Tracked(s) && HasRead(s, t, k, raw) && s.txns[t].phase.ToReplace? && k == s.txns[t].done
    requires !FamilyLocked(s, t, s.txns[t].phase.id)
    ensures var s1 := RunStep(s, t, 0, None);
      && HasRead(s1, t, k, raw) && s1.txns[t].phase.ToRecord? && s1.txns[t].done == k
      && s1.txns[t].calls == s.txns[t].calls && s1 == With(s, t, s1.txns[t])
      && View(s1, s1.txns[t]).history == View(s, s.txns[t]).history
  {
    hide Tracked, View, FamilyLocked;
    var x, view := s.txns[t], View(s, s.txns[t]);
    StillVisible(s, t);
    ReplaceAlone(s, t, x, x.calls[k], view);
    hide ReplaceStep, Visible;
    assert RunStep(s, t, 0, None) == ReplaceStep(s, t, x.calls[k]);
  }

  lemma StillVisible(s: State, t: TxnId)
    requires Tracked(s) && t in s.txns && s.txns[t].phase.ToReplace?
    ensures s.txns[t].phase.id in Visible(View(s, s.txns[t]), s.txns[t].scope)
    ensures |s.txns[t].answers| == s.txns[t].done
  {
    assert TxnOk(s, s.txns[t]) && Tracks(s, s.txns[t]);
  }

  lemma RunThen(s: State, t: TxnId, rest: seq<Action>)
    requires t in s.txns
    ensures Exec(s, [Run(t, 0, None)] + rest) == Exec(RunStep(s, t, 0, None), rest)
  {
    assert Exec(s, []) == s;
    Then(s, [], Run(t, 0, None));
    assert [] + [Run(t, 0, None)] == [Run(t, 0, None)];
    hide RunStep;
    ExecOn(s, [Run(t, 0, None)], rest);
  }

  lemma RecordFinishes(s: State, t: TxnId, k: nat, raw: string) returns (run: seq<Action>)
    requires Tracked(s) && HasRead(s, t, k, raw) && s.txns[t].phase.ToRecord? && k == s.txns[t].done
    requires var h := Sha256(s.txns[t].calls[k].newRaw); h !in View(s, s.txns[t]).history && !HashLocked(s, t, h)
    ensures var s' := Exec(s, run);
      Succeeded(s', t, k, raw) && OnlyChanges(s, s', t) && AddsOnly(s, s', t, k)
  {
    hide Tracked, RunStep, View, HashLocked, Exec, Succeeded;
    RecordMoves(s, t, k, raw);
    run := [Run(t, 0, None)] + [End(t, true)];
    CommitFinishes(RunStep(s, t, 0, None), t, k, raw);
    RunThen(s, t, [End(t, true)]);
  }

  lemma ReplaceFinishes(s: State, t: TxnId, k: nat, raw: string) returns (run: seq<Action>)
    requires Tracked(s) && HasRead(s, t, k, raw) && s.txns[t].phase.ToReplace? && k == s.txns[t].done
    requires !FamilyLocked(s, t, s.txns[t].phase.id)
    requires var h := Sha256(s.txns[t].calls[k].newRaw); h !in View(s, s.txns[t]).history && !HashLocked(s, t, h)
    ensures var s' := Exec(s, run);
      Succeeded(s', t, k, raw) && OnlyChanges(s, s', t) && AddsOnly(s, s', t, k)
  {
    hide Tracked, RunStep, View, Exec, Succeeded, FamilyLocked;
    ReplaceMoves(s, t, k, raw);
    RunTracked(s, t);
    var s1 := RunStep(s, t, 0, None);
    assert !HashLocked(s1, t, Sha256(s.txns[t].calls[k].newRaw));
    hide HashLocked;
    var rest := RecordFinishes(s1, t, k, raw);
    run := [Run(t, 0, None)] + rest;
    RunThen(s, t, rest);
  }

  lemma RunTracked(s: State, t: TxnId)
    requires Tracked(s) && t in s.txns
    ensures Tracked(RunStep(s, t, 0, None))
  {
    StepTracked(s, Run(t, 0, None));
    hide Tracked, RunStep;
  }

  /** A call that has read, with nobody in its way, runs to its commit. */
  lemma Finishes(s: State, t: TxnId, k: nat, raw: string) returns (run: seq<Action>)
    requires Tracked(s) && HasRead(s, t, k, raw) && Current(s.txns[t], k)
    requires s.txns[t].phase.ToReplace? ==> !FamilyLocked(s, t, s.txns[t].phase.id)
    requires var h := Sha256(s.txns[t].calls[k].newRaw);
      k == s.txns[t].done ==> h !in View(s, s.txns[t]).history && !HashLocked(s, t, h)
    ensures var s' := Exec(s, run);
      Succeeded(s', t, k, raw) && OnlyChanges(s, s', t) && AddsOnly(s, s', t, k)
  {
    AnswersAreDone(s, t);
    hide View, FamilyLocked, HashLocked, Exec, Succeeded, OnlyChanges, AddsOnly, Tracked;
    if s.txns[t].phase.Next? {
      run := [End(t, true)];
      CommitFinishes(s, t, k, raw);
    } else if s.txns[t].phase.ToRecord? {
      run := RecordFinishes(s, t, k, raw);
    } else {
      run := ReplaceFinishes(s, t, k, raw);
    }
  }

  ghost predicate OnlyOpen(s: State, t: TxnId, u: TxnId) {
    forall v :: v in s.txns && v != t && v != u ==> Over(s.txns[v])
  }

  function OpenOthers(s: State, t: TxnId, u: TxnId): set<TxnId> {
    set v | v in s.txns && v != t && v != u && !Over(s.txns[v])
  }

  /** Everyone else can be rolled back, which changes nothing for these two. */
  lemma {:induction false} ClearOthers(s: State, t: TxnId, u: TxnId) returns (run: seq<Action>)
    requires t in s.txns && u in s.txns
    ensures var s' := Exec(s, run);
      && Public(s') == Public(s) && s'.txns.Keys == s.txns.Keys && s'.txns[t] == s.txns[t] && s'.txns[u] == s.txns[u]
      && OnlyOpen(s', t, u)
    decreases |OpenOthers(s, t, u)|
  {
    if v :| v in OpenOthers(s, t, u) {
      var s1 := RollBack(s, v);
      assert Exec(s, []) == s;
      Then(s, [], End(v, false));
      assert [] + [End(v, false)] == [End(v, false)];
      assert OpenOthers(s1, t, u) == OpenOthers(s, t, u) - {v};
      var rest := ClearOthers(s1, t, u);
      run := [End(v, false)] + rest;
      ExecOn(s, [End(v, false)], rest);
    } else {
      run := [];
      assert forall v :: v in s.txns && v != t && v != u && !Over(s.txns[v]) ==> v in OpenOthers(s, t, u);
    }
  }

  /** Two transactions that have read one token are about to write the same family. */
  lemma SameFamily(s: State, t: TxnId, k: nat, u: TxnId, l: nat, raw: string)
    requires Tracked(s) && t != u && HasRead(s, t, k, raw) && HasRead(s, u, l, raw)
    requires s.txns[t].phase.ToReplace? && s.txns[u].phase.ToReplace? && k == s.txns[t].done && l == s.txns[u].done
    ensures s.txns[t].phase.id == s.txns[u].phase.id
  {
    var x, y, h := s.txns[t], s.txns[u], Sha256(raw);
    assert Tracks(s, x) && Tracks(s, y) && TxnOk(s, x) && TxnOk(s, y) && Apart(x, y);
    assert h in x.history.puts ==> HashOk(s, x, h);
    assert h in y.history.puts ==> HashOk(s, y, h);
  }

  /** Nobody holds what the first of two needs, when everyone else is over and the other does not hold its family. */
  lemma NothingInTheWay(s: State, t: TxnId, k: nat, u: TxnId, raw: string)
    requires Tracked(s) && t != u && HasRead(s, t, k, raw) && u in s.txns && OnlyOpen(s, t, u) && Unseen(s, t, k, u)
    requires s.txns[t].phase.ToReplace? ==> s.txns[t].phase.id !in s.txns[u].families.puts
    ensures s.txns[t].phase.ToReplace? ==> !FamilyLocked(s, t, s.txns[t].phase.id)
    ensures k == s.txns[t].done ==> !HashLocked(s, t, Sha256(s.txns[t].calls[k].newRaw))
  {
    forall v | v in s.txns && v != t ensures v == u || (s.txns[v].families == Clean() && s.txns[v].history == Clean()) {
      assert TxnOk(s, s.txns[v]);
    }
    assert TxnOk(s, s.txns[u]);
  }

  /** First one, then the other. */
  lemma OneThenOther(s: State, t: TxnId, k: nat, u: TxnId, l: nat, raw: string) returns (run: seq<Action>)
    requires Tracked(s) && t != u && HasRead(s, t, k, raw) && HasRead(s, u, l, raw) && OnlyOpen(s, t, u)
    requires Current(s.txns[t], k) && Current(s.txns[u], l) && Unseen(s, t, k, u) && Unseen(s, u, l, t)
    requires s.txns[t].calls[k].newRaw != s.txns[u].calls[l].newRaw
    requires s.txns[t].phase.ToReplace? ==> s.txns[t].phase.id !in s.txns[u].families.puts
    ensures Succeeded(Exec(s, run), t, k, raw) && Succeeded(Exec(s, run), u, l, raw)
  {
    NothingInTheWay(s, t, k, u, raw);
    var first := Finishes(s, t, k, raw);
    var s1 := Exec(s, first);
    AllTracked(s, first);
    SecondIsFree(s, s1, t, k, u, l, raw);
    var second := Finishes(s1, u, l, raw);
    ExecOn(s, first, second);
    run := first + second;
  }

  lemma {:induction false} AllTracked(s: State, run: seq<Action>)
    requires Tracked(s)
    ensures Tracked(Exec(s, run))
  {
    if run != [] {
      AllTracked(s, run[..|run| - 1]);
      StepTracked(Exec(s, run[..|run| - 1]), run[|run| - 1]);
    }
  }

  lemma SecondIsFree(s: State, s1: State, t: TxnId, k: nat, u: TxnId, l: nat, raw: string)
    requires Tracked(s1) && t != u && HasRead(s, t, k, raw) && HasRead(s, u, l, raw) && OnlyOpen(s, t, u)
    requires Unseen(s, u, l, t) && s.txns[t].calls[k].newRaw != s.txns[u].calls[l].newRaw
    requires Succeeded(s1, t, k, raw) && OnlyChanges(s, s1, t) && AddsOnly(s, s1, t, k)
    ensures HasRead(s1, u, l, raw) && s1.txns[u] == s.txns[u]
    ensures s1.txns[u].phase.ToReplace? ==> !FamilyLocked(s1, u, s1.txns[u].phase.id)
    ensures var h := Sha256(s1.txns[u].calls[l].newRaw);
      l == s1.txns[u].done ==> h !in View(s1, s1.txns[u]).history && !HashLocked(s1, u, h)
  {
    forall v | v in s1.txns && v != u ensures s1.txns[v].families == Clean() && s1.txns[v].history == Clean() {
      assert TxnOk(s1, s1.txns[v]);
    }
  }

  /** Whenever both SELECTs have found the token good and neither transaction has ended, the two can both be answered
      and both commit, as long as their new tokens are new and different. */
  lemma BothCanSucceed(s0: State, run: seq<Action>, t: TxnId, k: nat, u: TxnId, l: nat, raw: string)
    returns (more: seq<Action>)
    requires Init(s0) && t != u
    requires var s := Exec(s0, run);
      && HasRead(s, t, k, raw) && HasRead(s, u, l, raw) && Current(s.txns[t], k) && Current(s.txns[u], l)
      && Unseen(s, t, k, u) && Unseen(s, u, l, t) && s.txns[t].calls[k].newRaw != s.txns[u].calls[l].newRaw
    ensures Succeeded(Exec(s0, run + more), t, k, raw) && Succeeded(Exec(s0, run + more), u, l, raw)
  {
    var s := Exec(s0, run);
    EveryRunTracked(s0, run);
    var clear := ClearOthers(s, t, u);
    var s1 := Exec(s, clear);
    AllTracked(s, clear);
    assert HasRead(s1, t, k, raw) && HasRead(s1, u, l, raw) && Unseen(s1, t, k, u) && Unseen(s1, u, l, t);
    var rest: seq<Action>;
    if s1.txns[t].phase.ToReplace? && s1.txns[t].phase.id in s1.txns[u].families.puts {
      OtherIsFree(s1, t, k, u, l, raw);
      rest := OneThenOther(s1, u, l, t, k, raw);
    } else {
      rest := OneThenOther(s1, t, k, u, l, raw);
    }
    more := clear + rest;
    ExecOn(s, clear, rest);
    ExecOn(s0, run, more);
  }

  lemma OtherIsFree(s: State, t: TxnId, k: nat, u: TxnId, l: nat, raw: string)
    requires Tracked(s) && t != u && HasRead(s, t, k, raw) && HasRead(s, u, l, raw)
    requires Current(s.txns[t], k) && Current(s.txns[u], l)
    requires s.txns[t].phase.ToReplace? && s.txns[t].phase.id in s.txns[u].families.puts
    ensures s.txns[u].phase.ToReplace? ==> s.txns[u].phase.id !in s.txns[t].families.puts
  {
    if s.txns[u].phase.ToReplace? {
      SameFamily(s, t, k, u, l, raw);
      assert Apart(s.txns[t], s.txns[u]);
    }
  }

  // ---- For one ------------------------------------------------------------------------------

  /** A transaction about to replace the live hash of family 9. */
  function Reader(newRaw: string): Txn {
    Txn(1, [Rotate("a", newRaw)], 0, ToReplace(9, 5, 1), [], Clean(), Clean())
  }

  function Fresh(newRaw: string): Txn {
    Txn(1, [Rotate("a", newRaw)], 0, Next, [], Clean(), Clean())
  }

  const LOGIN := Family(1, 5, Sha256("a"), None, 100)

  lemma Begins(s: State, t: TxnId, newRaw: string)
    requires t !in s.txns
    ensures Step(s, Begin(t, 1, [Rotate("a", newRaw)])) == With(s, t, Fresh(newRaw))
  {
  }

  lemma ReadsToken(s: State, t: TxnId, newRaw: string)
    requires t in s.txns && s.txns[t] == Fresh(newRaw) && 9 in s.families && s.families[9] == LOGIN
    ensures Step(s, Run(t, 10, Some(9))) == With(s, t, Reader(newRaw))
  {
    SeeClean(s.families);
  }

  function TwoTxns(x: Txn, y: Txn): State {
    State(map[9 := LOGIN], map[Sha256("a") := HistoryRow(9, 1)], map[1 := x, 2 := y])
  }

  lemma BothBegin() returns (s0: State, run: seq<Action>)
    ensures Init(s0) && Exec(s0, run) == TwoTxns(Fresh("b"), Fresh("c"))
  {
    s0 := State(map[9 := LOGIN], map[Sha256("a") := HistoryRow(9, 1)], map[]);
    assert Exec(s0, []) == s0;
    hide Exec, Step;
    Then(s0, [], Begin(1, 1, [Rotate("a", "b")]));
    Begins(s0, 1, "b");
    run := [] + [Begin(1, 1, [Rotate("a", "b")])];
    Then(s0, run, Begin(2, 1, [Rotate("a", "c")]));
    Begins(Exec(s0, run), 2, "c");
    run := run + [Begin(2, 1, [Rotate("a", "c")])];
  }

  /** Both have read the row while its live token was "a". */
  lemma BothHaveRead() returns (s0: State, run: seq<Action>)
    ensures Init(s0) && Exec(s0, run) == TwoTxns(Reader("b"), Reader("c"))
  {
    hide Exec, Step, Init, Fresh, Reader;
    s0, run := BothBegin();
    Then(s0, run, Run(1, 10, Some(9)));
    ReadsToken(Exec(s0, run), 1, "b");
    run := run + [Run(1, 10, Some(9))];
    assert Exec(s0, run) == TwoTxns(Reader("b"), Fresh("c"));
    Then(s0, run, Run(2, 10, Some(9)));
    ReadsToken(Exec(s0, run), 2, "c");
    run := run + [Run(2, 10, Some(9))];
  }

  /** `replace_hash` does not look at the hash it replaces: here one token is rotated twice, and both
      rotations commit. */
  lemma TokenUsedTwice() returns (s0: State, run: seq<Action>)
    ensures Init(s0) && Succeeded(Exec(s0, run), 1, 0, "a") && Succeeded(Exec(s0, run), 2, 0, "a")
  {
    hide Exec, Init;
    s0, run := BothHaveRead();
    assert "a"[0] != "b"[0] && "a"[0] != "c"[0] && "b"[0] != "c"[0];
    var more := BothCanSucceed(s0, run, 1, 0, 2, 0, "a");
    run := run + more;
  }
}
