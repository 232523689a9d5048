/** When a family is revoked, in every interleaving: when a transaction that rejected the replay of one of its tokens
    commits, and not otherwise. */
module RefreshRevocation {
  import opened Wrappers
  import opened Tables
  import opened RefreshTokens
  import opened RefreshProtocol
  import opened RefreshAlone
  import opened RefreshTracking

  ghost predicate NoneRevoked(families: map<FamilyId, Family>) {
    forall id :: id in families ==> families[id].revokedAt.None?
  }

  /** One of its calls was turned away as a replay. */
  ghost predicate RejectedReplay(x: Txn) {
    Rejected(Consumed) in x.answers
  }

  /** Only a transaction that has rejected a replay has a revocation among its writes. */
  ghost predicate Quiet(s: State) {
    && NoneRevoked(s.families)
    && (forall t :: t in s.txns && !RejectedReplay(s.txns[t]) ==> NoneRevoked(s.txns[t].families.puts))
  }

  lemma RecordsQuietly(s: State, t: TxnId, call: Call, now: Time, pick: Option<FamilyId>)
    requires t in s.txns && NoneRevoked(s.txns[t].families.puts)
    ensures call.Issue?
      ==> t in InsertFamilyStep(s, t, call).txns && NoneRevoked(InsertFamilyStep(s, t, call).txns[t].families.puts)
    ensures call.Rotate? ==>
      t in FindStep(s, t, call, now, pick).txns && NoneRevoked(FindStep(s, t, call, now, pick).txns[t].families.puts)
    ensures s.txns[t].phase.ToRecord?
      ==> t in RecordStep(s, t).txns && NoneRevoked(RecordStep(s, t).txns[t].families.puts)
  {
    hide FamilyLocked, HashLocked, Live, View;
  }

  lemma ReplacesQuietly(s: State, t: TxnId, call: Call)
    requires t in s.txns && NoneRevoked(s.txns[t].families.puts) && NoneRevoked(s.families)
    requires s.txns[t].phase.ToReplace? && call.Rotate?
    ensures t in ReplaceStep(s, t, call).txns && NoneRevoked(ReplaceStep(s, t, call).txns[t].families.puts)
  {
    hide FamilyLocked;
    assert NoneRevoked(View(s, s.txns[t]).families);
  }

  lemma RevokesByRejecting(s: State, t: TxnId, call: Call, now: Time)
    requires t in s.txns && call.Rotate?
    ensures t in RevokeStep(s, t, call, now).txns
    ensures var x, y := s.txns[t], RevokeStep(s, t, call, now).txns[t]; y == x || RejectedReplay(y)
  {
    hide FamilyLocked, FamilyContaining, View;
    var x, y := s.txns[t], RevokeStep(s, t, call, now).txns[t];
    if y != x {
      assert y.answers == x.answers + [Rejected(Consumed)];
      assert y.answers[|x.answers|] == Rejected(Consumed);
    }
  }

  lemma RunQuiet(s: State, t: TxnId, now: Time, pick: Option<FamilyId>)
    requires Quiet(s) && t in s.txns
    ensures t in RunStep(s, t, now, pick).txns
    ensures var y := RunStep(s, t, now, pick).txns[t]; RejectedReplay(y) || NoneRevoked(y.families.puts)
  {
    hide InsertFamilyStep, FindStep, ReplaceStep, RecordStep, RevokeStep, NoneRevoked;
    var x := s.txns[t];
    AnswersStay(s, t, now, pick);
    if !RejectedReplay(x) && !Over(x) && x.done < |x.calls| {
      var call := x.calls[x.done];
      RecordsQuietly(s, t, call, now, pick);
      if x.phase.ToReplace? && call.Rotate? {
        ReplacesQuietly(s, t, call);
      }
      if call.Rotate? {
        RevokesByRejecting(s, t, call, now);
      }
    }
  }

  lemma AnswersStay(s: State, t: TxnId, now: Time, pick: Option<FamilyId>)
    requires t in s.txns
    ensures t in RunStep(s, t, now, pick).txns && s.txns[t].answers <= RunStep(s, t, now, pick).txns[t].answers
  {
    hide View, FamilyLocked, HashLocked, FamilyContaining, Live;
  }

  /** No transaction that has rejected a replay is committed. */
  ghost predicate NoRejectionCommits(s0: State, run: seq<Action>) {
    forall i :: 0 <= i < |run| && run[i].End? && run[i].keep ==>
      var s := Exec(s0, run[..i]); run[i].t in s.txns ==> !RejectedReplay(s.txns[run[i].t])
  }

  lemma StepQuiet(s: State, a: Action)
    requires Quiet(s) && (a.End? && a.keep && a.t in s.txns ==> !RejectedReplay(s.txns[a.t]))
    ensures Quiet(Step(s, a))
  {
    if a.Run? && a.t in s.txns {
      RunQuiet(s, a.t, a.now, a.pick);
      RunOnlyOwn(s, a.t, a.now, a.pick);
      hide RunStep;
    }
  }

  /** If every transaction that rejects a replay is rolled back, as the endpoint's are, no family is ever revoked. */
  lemma {:induction false} NeverRevokedUnlessRejectionCommits(s0: State, run: seq<Action>)
    requires Init(s0) && NoneRevoked(s0.families) && NoRejectionCommits(s0, run)
    ensures Quiet(Exec(s0, run))
    ensures NoneRevoked(Exec(s0, run).families)
  {
    if run != [] {
      var front := run[..|run| - 1];
      forall i | 0 <= i < |front| && front[i].End? && front[i].keep
        ensures var s := Exec(s0, front[..i]); front[i].t in s.txns ==> !RejectedReplay(s.txns[front[i].t])
      {
        assert front[..i] == run[..i] && front[i] == run[i];
      }
      NeverRevokedUnlessRejectionCommits(s0, front);
      StepQuiet(Exec(s0, front), run[|run| - 1]);
    }
  }

  // ---- And always when it does --------------------------------------------------------------

  /** The transaction has revoked the family, for itself so far or for everyone. */
  ghost predicate Revokes(s: State, t: TxnId, id: FamilyId) {
    && t in s.txns
    && match s.txns[t].phase
       case Committed => id in s.families && s.families[id].revokedAt.Some?
       case RolledBack => true
       case _ => id in s.txns[t].families.puts && s.txns[t].families.puts[id].revokedAt.Some?
  }

  /** The transaction has found its token not live, and sees the token in the history of this family. */
  ghost predicate Rejects(s: State, t: TxnId, id: FamilyId) {
    && t in s.txns && s.txns[t].phase.ToRevoke?
    && var x := s.txns[t];
       && x.done < |x.calls| && x.calls[x.done].Rotate?
       && FamilyContaining(View(s, x), x.scope, Sha256(x.calls[x.done].raw)) == Some(id)
  }

  /** Action `i` is the statement that rejects the replay of one of the family's tokens, and it does not wait. */
  ghost predicate RejectsAt(s0: State, run: seq<Action>, i: nat, t: TxnId, id: FamilyId) {
    && i < |run| && run[i].Run? && run[i].t == t
    && Rejects(Exec(s0, run[..i]), t, id) && Exec(s0, run[..i + 1]) != Exec(s0, run[..i])
  }

  /** That statement writes the revocation of the family the history names. */
  lemma ReplayWritesRevocation(s: State, t: TxnId, now: Time, pick: Option<FamilyId>, id: FamilyId)
    requires Rejects(s, t, id) && RunStep(s, t, now, pick) != s
    ensures Revokes(RunStep(s, t, now, pick), t, id)
  {
    hide FamilyLocked, View;
  }

  lemma RevokesStays(s: State, a: Action, t: TxnId, id: FamilyId)
    requires Inv(s) && Revokes(s, t, id)
    ensures Revokes(Step(s, a), t, id)
  {
    StepKeeps(s, a);
    hide Inv, UsedUp;
    if a.Run? {
      if a.t in s.txns {
        RunOnlyOwn(s, a.t, a.now, a.pick);
        RunCommitsNothing(s, a.t, a.now, a.pick);
        if a.t == t {
          RunRevokes(s, t, a.now, a.pick, id);
        }
        hide RunStep;
      }
    } else {
      hide RunStep;
      EndRevokes(s, a, t, id);
    }
  }

  lemma EndRevokes(s: State, a: Action, t: TxnId, id: FamilyId)
    requires !a.Run? && Revokes(s, t, id) && Keeps(Public(s), Public(Step(s, a)))
    ensures Revokes(Step(s, a), t, id)
  {
    hide RunStep, UsedUp;
    if a.t == t {
      hide Keeps;
    }
  }

  lemma RunRevokes(s: State, t: TxnId, now: Time, pick: Option<FamilyId>, id: FamilyId)
    requires t in s.txns && Revokes(s, t, id)
    ensures Revokes(RunStep(s, t, now, pick), t, id)
  {
    hide FamilyLocked, HashLocked, FamilyContaining, Live;
  }

  /** What a transaction has written of a revocation it keeps, and publishes for good if it commits. */
  lemma {:induction false} RevokesOn(s0: State, run: seq<Action>, m: nat, t: TxnId, id: FamilyId)
    requires Init(s0) && m <= |run| && Revokes(Exec(s0, run[..m]), t, id)
    ensures Revokes(Exec(s0, run), t, id)
    decreases |run|
  {
    if m == |run| {
      assert run[..m] == run;
    } else {
      var front := run[..|run| - 1];
      assert front[..m] == run[..m];
      RevokesOn(s0, front, m, t, id);
      EveryInterleaving(s0, front, 0);
      RevokesStays(Exec(s0, front), run[|run| - 1], t, id);
    }
  }

  /** Once the statement that rejects a replay has run, its transaction leaves the family revoked for good if it
      commits, and has the revocation among its writes until it ends. */
  lemma CommittedRejectionRevokes(s0: State, run: seq<Action>, i: nat, t: TxnId, id: FamilyId)
    requires Init(s0) && RejectsAt(s0, run, i, t, id)
    ensures Revokes(Exec(s0, run), t, id)
    ensures Exec(s0, run).txns[t].phase.Committed? ==>
      id in Exec(s0, run).families && Exec(s0, run).families[id].revokedAt.Some?
  {
    var s := Exec(s0, run[..i]);
    assert run[..i + 1] == run[..i] + [run[i]];
    Then(s0, run[..i], run[i]);
    hide Exec, RunStep, Rejects;
    ReplayWritesRevocation(s, t, run[i].now, run[i].pick, id);
    RevokesOn(s0, run, i + 1, t, id);
  }

  // ---- Exactly ------------------------------------------------------------------------------

  ghost predicate IsRevoked(families: map<FamilyId, Family>, id: FamilyId) {
    id in families && families[id].revokedAt.Some?
  }

  lemma RejectsAtStays(s0: State, front: seq<Action>, a: Action, i: nat, t: TxnId, id: FamilyId)
    requires RejectsAt(s0, front, i, t, id)
    ensures RejectsAt(s0, front + [a], i, t, id)
  {
    hide Exec, Rejects;
    assert (front + [a])[..i] == front[..i] && (front + [a])[..i + 1] == front[..i + 1];
  }

  lemma RevokeWritesRevocation(s: State, t: TxnId, call: Call, now: Time, id: FamilyId)
    requires t in s.txns && call.Rotate? && s.txns[t].phase.ToRevoke?
    requires s.txns[t].done < |s.txns[t].calls| && call == s.txns[t].calls[s.txns[t].done]
    ensures t in RevokeStep(s, t, call, now).txns
    ensures IsRevoked(RevokeStep(s, t, call, now).txns[t].families.puts, id) ==>
      IsRevoked(s.txns[t].families.puts, id) || (Rejects(s, t, id) && RevokeStep(s, t, call, now) != s)
  {
    hide FamilyLocked, View, FamilyContaining;
  }

  lemma OthersWriteNoRevocation(s: State, t: TxnId, call: Call, now: Time, pick: Option<FamilyId>, id: FamilyId)
    requires t in s.txns
    ensures call.Issue? ==>
      && t in InsertFamilyStep(s, t, call).txns
      && (IsRevoked(InsertFamilyStep(s, t, call).txns[t].families.puts, id) ==> IsRevoked(s.txns[t].families.puts, id))
    ensures call.Rotate? ==>
      && t in FindStep(s, t, call, now, pick).txns
      && FindStep(s, t, call, now, pick).txns[t].families == s.txns[t].families
    ensures s.txns[t].phase.ToRecord? ==>
      && t in RecordStep(s, t).txns
      && (IsRevoked(RecordStep(s, t).txns[t].families.puts, id) ==> IsRevoked(s.txns[t].families.puts, id))
  {
    hide FamilyLocked, HashLocked, Live, View;
  }

  lemma ReplaceCopiesRevocation(s: State, t: TxnId, call: Call, id: FamilyId)
    requires t in s.txns && s.txns[t].phase.ToReplace? && call.Rotate?
    ensures t in ReplaceStep(s, t, call).txns
    ensures IsRevoked(ReplaceStep(s, t, call).txns[t].families.puts, id) ==>
      IsRevoked(s.txns[t].families.puts, id) || IsRevoked(s.families, id)
  {
    hide FamilyLocked;
  }

  /** A statement writes a revocation only by rejecting a replay, or over a row it sees revoked. */
  lemma RunWritesRevocation(s: State, t: TxnId, now: Time, pick: Option<FamilyId>, id: FamilyId)
    requires t in s.txns
    ensures t in RunStep(s, t, now, pick).txns
    ensures IsRevoked(RunStep(s, t, now, pick).txns[t].families.puts, id) ==>
      || IsRevoked(s.txns[t].families.puts, id) || IsRevoked(s.families, id)
      || (Rejects(s, t, id) && RunStep(s, t, now, pick) != s)
  {
    hide InsertFamilyStep, FindStep, ReplaceStep, RecordStep, RevokeStep, IsRevoked, Rejects;
    var x := s.txns[t];
    if !Over(x) && x.done < |x.calls| {
      var call := x.calls[x.done];
      OthersWriteNoRevocation(s, t, call, now, pick, id);
      if x.phase.ToRevoke? && call.Rotate? {
        RevokeWritesRevocation(s, t, call, now, id);
      } else if x.phase.ToReplace? && call.Rotate? {
        ReplaceCopiesRevocation(s, t, call, id);
      }
    }
  }

  /** So what an open transaction has written of a revocation comes from a rejection of its own, or from a committed
      row. */
  lemma {:induction false} WrittenByRejection(s0: State, run: seq<Action>, t: TxnId, id: FamilyId) returns (i: nat)
    requires Init(s0) && t in Exec(s0, run).txns && IsRevoked(Exec(s0, run).txns[t].families.puts, id)
    ensures RejectsAt(s0, run, i, t, id) || IsRevoked(Exec(s0, run).families, id)
  {
    var front, last := run[..|run| - 1], run[|run| - 1];
    assert run == front + [last] && run[..|front|] == front && run[..|front| + 1] == run;
    Then(s0, front, last);
    var s := Exec(s0, front);
    EveryInterleaving(s0, front, 0);
    StepKeeps(s, last);
    WritesRevocation(s, last, t, id);
    i := |front|;
    hide Exec, Step, Rejects, Inv, Init;
    if t in s.txns && IsRevoked(s.txns[t].families.puts, id) {
      i := WrittenByRejection(s0, front, t, id);
      if RejectsAt(s0, front, i, t, id) {
        RejectsAtStays(s0, front, last, i, t, id);
      }
    }
  }

  lemma WritesRevocation(s: State, a: Action, t: TxnId, id: FamilyId)
    requires t in Step(s, a).txns && IsRevoked(Step(s, a).txns[t].families.puts, id)
    ensures || (t in s.txns && IsRevoked(s.txns[t].families.puts, id)) || IsRevoked(s.families, id)
            || (a.Run? && a.t == t && Rejects(s, t, id) && Step(s, a) != s)
  {
    if a.Run? && a.t in s.txns {
      RunWritesRevocation(s, a.t, a.now, a.pick, id);
      RunOnlyOwn(s, a.t, a.now, a.pick);
    }
    hide RunStep, Rejects;
  }

  lemma CommittedStays(s: State, a: Action, t: TxnId)
    requires t in s.txns && s.txns[t].phase.Committed?
    ensures t in Step(s, a).txns && Step(s, a).txns[t].phase.Committed?
  {
    if a.Run? && a.t in s.txns && a.t != t {
      RunOnlyOwn(s, a.t, a.now, a.pick);
      hide RunStep;
    }
  }

  /** A family that a step leaves revoked was revoked before, or the step commits a transaction that wrote that. */
  lemma StepRevokes(s: State, a: Action, id: FamilyId)
    requires IsRevoked(Step(s, a).families, id)
    ensures || IsRevoked(s.families, id)
            || (a.End? && a.t in s.txns && IsRevoked(s.txns[a.t].families.puts, id) && a.t in Step(s, a).txns
                && Step(s, a).txns[a.t].phase.Committed?)
  {
    if a.Run? && a.t in s.txns {
      RunCommitsNothing(s, a.t, a.now, a.pick);
    }
    hide RunStep;
  }

  ghost predicate CommittedRejection(s0: State, run: seq<Action>, i: nat, t: TxnId, id: FamilyId) {
    RejectsAt(s0, run, i, t, id) && t in Exec(s0, run).txns && Exec(s0, run).txns[t].phase.Committed?
  }

  lemma {:induction false} RevokedByRejection(s0: State, run: seq<Action>, id: FamilyId) returns (i: nat, t: TxnId)
    requires Init(s0) && NoneRevoked(s0.families) && IsRevoked(Exec(s0, run).families, id)
    ensures CommittedRejection(s0, run, i, t, id)
  {
    assert run != [];
    var front, last := run[..|run| - 1], run[|run| - 1];
    assert run == front + [last];
    Then(s0, front, last);
    var s := Exec(s0, front);
    hide Exec, Step, RejectsAt, Init;
    StepRevokes(s, last, id);
    if IsRevoked(s.families, id) {
      i, t := RevokedByRejection(s0, front, id);
      CommittedStays(s, last, t);
    } else {
      t := last.t;
      i := WrittenByRejection(s0, front, t, id);
    }
    RejectsAtStays(s0, front, last, i, t, id);
  }

  /** In every interleaving: a family is revoked if and only if a transaction that rejected a replay of one of its
      tokens has committed. */
  lemma RevokedExactly(s0: State, run: seq<Action>, id: FamilyId)
    requires Init(s0) && NoneRevoked(s0.families)
    ensures IsRevoked(Exec(s0, run).families, id) <==> exists i: nat, t :: CommittedRejection(s0, run, i, t, id)
  {
    hide Exec, Init, RejectsAt;
    if IsRevoked(Exec(s0, run).families, id) {
      var i, t := RevokedByRejection(s0, run, id);
    }
    if i: nat, t :| CommittedRejection(s0, run, i, t, id) {
      CommittedRejectionRevokes(s0, run, i, t, id);
    }
  }
}
