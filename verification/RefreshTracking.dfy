/** What each transaction knows and has used up, kept by every step. */
module RefreshTracking {
  import opened Wrappers
  import opened Tables
  import opened RefreshTokens
  import opened RefreshProtocol
  import opened RefreshAlone

  // ---- What a transaction has used ----------------------------------------------------------

  /** The transaction sees the hash in history, under this family. */
  ghost predicate Knows(s: State, x: Txn, id: FamilyId, h: Hash) {
    h in View(s, x).history && View(s, x).history[h].family == id
  }

  /** It was the transaction's to replace: the family it sees the hash under is one it has written, with another live
      hash, or with this one in an attempt that its own INSERT is about to refuse. */
  ghost predicate Spent(s: State, x: Txn, h: Hash) {
    match x.phase
    case Committed => UsedUp(Public(s), h)
    case RolledBack => true
    case _ =>
      && h in View(s, x).history
      && var id := View(s, x).history[h].family;
         id in x.families.puts && (x.families.puts[id].current != h || (x.phase.ToRecord? && x.phase.hash == h))
  }

  ghost predicate CallOk(s: State, x: Txn) {
    match x.phase
    case ToReplace(id, _, _) =>
      x.done < |x.calls| && x.calls[x.done].Rotate? && Knows(s, x, id, Sha256(x.calls[x.done].raw))
    case ToRevoke => x.done < |x.calls| && x.calls[x.done].Rotate?
    case ToRecord(id, _, hash, answer) =>
      && x.done < |x.calls| && id in x.families.puts && x.families.puts[id].current == hash
      && (answer.Rotated? <==> x.calls[x.done].Rotate?)
      && (answer.Rotated? ==> hash == Sha256(x.calls[x.done].newRaw) && x.phase.org == x.scope)
      && (answer.Rotated? ==> Knows(s, x, id, Sha256(x.calls[x.done].raw)))
    case _ => true
  }

  ghost predicate Tracks(s: State, x: Txn) {
    && |x.answers| == x.done <= |x.calls|
    && CallOk(s, x)
    && (forall k :: 0 <= k < |x.answers| && x.answers[k].Rotated? ==>
          x.calls[k].Rotate? && Spent(s, x, Sha256(x.calls[k].raw)))
  }

  ghost predicate Tracked(s: State) {
    Inv(s) && forall t :: t in s.txns ==> Tracks(s, s.txns[t])
  }

  lemma TracksWith(s: State, t: TxnId, y: Txn)
    requires Tracked(s) && Inv(With(s, t, y)) && Tracks(s, y)
    ensures Tracked(With(s, t, y))
  {
    hide Inv;
    forall u | u in With(s, t, y).txns ensures Tracks(With(s, t, y), With(s, t, y).txns[u]) {
      SameTablesTracks(s, With(s, t, y), With(s, t, y).txns[u]);
    }
  }

  lemma SameTablesTracks(s: State, s': State, x: Txn)
    requires Tracks(s, x) && s'.families == s.families && s'.history == s.history
    ensures Tracks(s', x)
  {
    hide CallOk;
    assert View(s', x) == View(s, x) && Public(s') == Public(s);
    SameTablesCall(s, s', x);
    forall k | 0 <= k < |x.answers| && x.answers[k].Rotated? ensures Spent(s', x, Sha256(x.calls[k].raw)) {
      assert Spent(s, x, Sha256(x.calls[k].raw));
    }
  }

  lemma SameTablesCall(s: State, s': State, x: Txn)
    requires CallOk(s, x) && s'.families == s.families && s'.history == s.history
    ensures CallOk(s', x)
  {
    assert View(s', x) == View(s, x);
  }

  /** A change of phase only keeps what was spent, when the transaction was between calls or still open. */
  lemma SpentStays(s: State, x: Txn, y: Txn, h: Hash)
    requires Spent(s, x, h) && y.history == x.history && !Over(x) && !Over(y) && !x.phase.ToRecord?
    requires forall id :: id in x.families.puts ==> id in y.families.puts
    requires forall id :: id in x.families.puts ==>
      y.families.puts[id].current == x.families.puts[id].current
        || (y.phase.ToRecord? && y.phase.hash == y.families.puts[id].current)
    ensures Spent(s, y, h)
  {
    assert View(s, y).history == View(s, x).history;
  }

  /** The next call, or its next statement, with whatever the statement wrote. */
  ghost predicate Moves(x: Txn, y: Txn) {
    && y.calls == x.calls && y.history == x.history && !Over(x) && !Over(y) && !x.phase.ToRecord?
    && (|| (y.answers == x.answers && y.done == x.done)
        || (exists a: Answer :: y == Answered(x, a).(families := y.families) && !a.Rotated?))
    && (forall id :: id in x.families.puts ==> id in y.families.puts)
    && (forall id :: id in x.families.puts ==>
          || y.families.puts[id].current == x.families.puts[id].current
          || (y.phase.ToRecord? && y.phase.hash == y.families.puts[id].current))
  }

  lemma MovesTracks(s: State, x: Txn, y: Txn)
    requires Tracks(s, x) && Moves(x, y) && CallOk(s, y) && y.done <= |y.calls|
    ensures Tracks(s, y)
  {
    hide CallOk, Spent;
    forall k | 0 <= k < |y.answers| && y.answers[k].Rotated?
      ensures y.calls[k].Rotate? && Spent(s, y, Sha256(y.calls[k].raw)) {
      assert k < |x.answers| && y.answers[k] == x.answers[k];
      SpentStays(s, x, y, Sha256(x.calls[k].raw));
    }
  }

  lemma InsertFamilyTracks(s: State, t: TxnId, call: Call, y: Txn)
    requires Tracked(s) && AtCall(s, t, call) && call.Issue? && s.txns[t].phase.Next?
    requires call.family !in View(s, s.txns[t]).families
    requires y == s.txns[t].(
      families := Put(s.txns[t].families, call.family,
                      Family(call.org, call.user, Sha256(call.raw), None, call.expiresAt)),
      phase := ToRecord(call.family, call.org, Sha256(call.raw), Answer.Issued))
    ensures Tracks(s, y)
  {
    hide Spent, Inv;
    assert Tracks(s, s.txns[t]);
    MovesTracks(s, s.txns[t], y);
  }

  lemma FindMoves(s: State, t: TxnId, call: Call, now: Time, pick: Option<FamilyId>)
    requires t in s.txns && AtCall(s, t, call) && call.Rotate? && s.txns[t].phase.Next?
    requires Structured(View(s, s.txns[t]))
    ensures t in FindStep(s, t, call, now, pick).txns
    ensures var y := FindStep(s, t, call, now, pick).txns[t]; Moves(s.txns[t], y) && CallOk(s, y) && y.done <= |y.calls|
  {
    hide See;
    var y := FindStep(s, t, call, now, pick).txns[t];
    assert View(s, y) == View(s, s.txns[t]);
    assert y == s.txns[t] || y.phase.ToRevoke? || y.phase.ToReplace? || y == Answered(s.txns[t], Rejected(Revoked))
        || y == Answered(s.txns[t], Rejected(Expired));
  }

  lemma FindTracks(s: State, t: TxnId, call: Call, now: Time, pick: Option<FamilyId>)
    requires Tracked(s) && AtCall(s, t, call) && call.Rotate? && s.txns[t].phase.Next?
    ensures t in FindStep(s, t, call, now, pick).txns && Tracks(s, FindStep(s, t, call, now, pick).txns[t])
  {
    hide Inv, FindStep, Moves, CallOk;
    assert Tracks(s, s.txns[t]);
    hide Tracks;
    ViewStructured(s, t);
    FindMoves(s, t, call, now, pick);
    MovesTracks(s, s.txns[t], FindStep(s, t, call, now, pick).txns[t]);
  }

  lemma ReplaceMoves(s: State, t: TxnId, call: Call)
    requires AtCall(s, t, call) && call.Rotate? && s.txns[t].phase.ToReplace? && !FamilyLocked(s, t, s.txns[t].phase.id)
    requires s.txns[t].phase.id in Visible(View(s, s.txns[t]), s.txns[t].scope)
    requires s.txns[t].phase.org == s.txns[t].scope
    requires CallOk(s, s.txns[t])
    ensures t in ReplaceStep(s, t, call).txns
    ensures var y := ReplaceStep(s, t, call).txns[t]; Moves(s.txns[t], y) && CallOk(s, y) && y.done <= |y.calls|
  {
    hide See, FamilyLocked;
    assert View(s, ReplaceStep(s, t, call).txns[t]).history == View(s, s.txns[t]).history;
  }

  lemma ReplaceTracks(s: State, t: TxnId, call: Call)
    requires Tracked(s) && AtCall(s, t, call) && call.Rotate? && s.txns[t].phase.ToReplace?
    requires !FamilyLocked(s, t, s.txns[t].phase.id)
    ensures t in ReplaceStep(s, t, call).txns && Tracks(s, ReplaceStep(s, t, call).txns[t])
  {
    assert Tracks(s, s.txns[t]) && TxnOk(s, s.txns[t]);
    hide Inv, Spent, CallOk, ReplaceStep, FamilyLocked, Moves;
    ReplaceMoves(s, t, call);
    hide TxnOk, Tracks, View;
    MovesTracks(s, s.txns[t], ReplaceStep(s, t, call).txns[t]);
  }

  lemma RevokeMoves(s: State, t: TxnId, call: Call, now: Time)
    requires AtCall(s, t, call) && call.Rotate? && s.txns[t].phase.ToRevoke? && s.txns[t].families.dels == {}
    ensures t in RevokeStep(s, t, call, now).txns
    ensures var y := RevokeStep(s, t, call, now).txns[t];
      y == s.txns[t] || (Moves(s.txns[t], y) && CallOk(s, y) && y.done <= |y.calls|)
  {
    var x, y := s.txns[t], RevokeStep(s, t, call, now).txns[t];
    assert y == x || y == Answered(x, Rejected(Consumed)).(families := y.families);
  }

  lemma RevokeTracks(s: State, t: TxnId, call: Call, now: Time)
    requires Tracked(s) && AtCall(s, t, call) && call.Rotate? && s.txns[t].phase.ToRevoke?
    ensures t in RevokeStep(s, t, call, now).txns && Tracks(s, RevokeStep(s, t, call, now).txns[t])
  {
    assert Tracks(s, s.txns[t]) && TxnOk(s, s.txns[t]);
    RevokeMoves(s, t, call, now);
    hide Inv, RevokeStep, Moves, CallOk, Tracks;
    if RevokeStep(s, t, call, now).txns[t] != s.txns[t] {
      MovesTracks(s, s.txns[t], RevokeStep(s, t, call, now).txns[t]);
    }
  }

  /** Once the history row is in, the token it replaced is spent, and so is every earlier one. */
  lemma RecordedSpent(s: State, x: Txn, y: Txn, k: nat)
    requires Tracks(s, x) && x.phase.ToRecord? && x.phase.hash !in View(s, x).history
    requires y == Answered(x, x.phase.answer).(
      history := Put(x.history, x.phase.hash, HistoryRow(x.phase.id, x.phase.org)))
    requires k < |y.answers| && y.answers[k].Rotated?
    ensures y.calls[k].Rotate? && Spent(s, y, Sha256(y.calls[k].raw))
  {
    SeePut(s.history, x.history, x.phase.hash, HistoryRow(x.phase.id, x.phase.org));
    hide See;
    if k < |x.answers| {
      assert Spent(s, x, Sha256(x.calls[k].raw));
    }
  }

  lemma RecordTracks(s: State, t: TxnId)
    requires Tracked(s) && t in s.txns && s.txns[t].phase.ToRecord? && !HashLocked(s, t, s.txns[t].phase.hash)
    ensures t in RecordStep(s, t).txns && Tracks(s, RecordStep(s, t).txns[t])
  {
    var x, y := s.txns[t], RecordStep(s, t).txns[t];
    assert Tracks(s, x);
    hide Spent, View, Inv;
    if y.phase.RolledBack? {
      EndedTracks(s, x);
    } else {
      forall k | 0 <= k < |y.answers| && y.answers[k].Rotated?
        ensures y.calls[k].Rotate? && Spent(s, y, Sha256(y.calls[k].raw)) {
        RecordedSpent(s, x, y, k);
      }
    }
  }

  lemma CommitTracks(s: State, t: TxnId, u: TxnId)
    requires Tracked(s) && t in s.txns && s.txns[t].phase.Next? && u in s.txns
    ensures u in Commit(s, t).txns && Tracks(Commit(s, t), Commit(s, t).txns[u])
  {
    var s' := Commit(s, t);
    var x, y := s.txns[u], s'.txns[u];
    assert Tracks(s, x) && TxnOk(s, x) && TxnOk(s, s.txns[t]);
    CommitKeepsPromises(s, t);
    if u != t {
      assert Apart(s.txns[t], x);
      HistoryStays(s, t, u);
    }
    forall k | 0 <= k < |y.answers| && y.answers[k].Rotated?
      ensures y.calls[k].Rotate? && Spent(s', y, Sha256(y.calls[k].raw)) {
      assert Spent(s, x, Sha256(x.calls[k].raw));
    }
  }

  /** What one transaction sees in history stays when another commits. */
  lemma HistoryStays(s: State, t: TxnId, u: TxnId)
    requires Inv(s) && t in s.txns && s.txns[t].phase.Next? && u in s.txns && u != t
    ensures var before, after := View(s, s.txns[u]).history, View(Commit(s, t), s.txns[u]).history;
      forall h :: h in before ==> h in after && after[h] == before[h]
  {
    var x, y := s.txns[t], s.txns[u];
    assert TxnOk(s, x) && TxnOk(s, y) && Apart(x, y);
    forall h | h in View(s, y).history
      ensures h in View(Commit(s, t), y).history && View(Commit(s, t), y).history[h] == View(s, y).history[h] {
      assert h in x.history.puts ==> HashOk(s, x, h);
    }
  }

  lemma RunOnlyOwn(s: State, t: TxnId, now: Time, pick: Option<FamilyId>)
    requires t in s.txns
    ensures t in RunStep(s, t, now, pick).txns
    ensures RunStep(s, t, now, pick) == With(s, t, RunStep(s, t, now, pick).txns[t])
  {
    hide View, FamilyLocked, HashLocked, Live, FamilyContaining;
    assert With(s, t, s.txns[t]) == s;
  }

  lemma RunTracks(s: State, t: TxnId, now: Time, pick: Option<FamilyId>)
    requires Tracked(s) && t in s.txns
    ensures t in RunStep(s, t, now, pick).txns && Tracks(s, RunStep(s, t, now, pick).txns[t])
  {
    var x := s.txns[t];
    assert Tracks(s, x);
    if !Over(x) && x.done < |x.calls| {
      var call := x.calls[x.done];
      hide FindStep, RevokeStep, Spent, CallOk, Inv;
      match x.phase
      case Next =>
        if call.Rotate? {
          FindTracks(s, t, call, now, pick);
        } else if call.org == x.scope && call.family !in View(s, x).families && !FamilyLocked(s, t, call.family) {
          InsertFamilyTracks(s, t, call, InsertFamilyStep(s, t, call).txns[t]);
        } else {
          EndedTracks(s, x);
        }
      case ToReplace(_, _, _) => if call.Rotate? && !FamilyLocked(s, t, x.phase.id) { ReplaceTracks(s, t, call); }
      case ToRecord(_, _, _, _) =>
        if !HashLocked(s, t, x.phase.hash) { RecordTracks(s, t); } else { EndedTracks(s, x); }
      case ToRevoke => if call.Rotate? { RevokeTracks(s, t, call, now); }
    }
  }

  lemma EndedTracks(s: State, x: Txn)
    requires Tracks(s, x)
    ensures Tracks(s, Ended(x, RolledBack))
  {
    hide Public, View;
  }

  lemma StepTracked(s: State, a: Action)
    requires Tracked(s)
    ensures Tracked(Step(s, a))
  {
    StepKeeps(s, a);
    hide Inv, RunStep;
    match a
    case Begin(t, scope, calls) =>
      if t !in s.txns {
        TracksWith(s, t, Txn(scope, calls, 0, Next, [], Clean(), Clean()));
      }
    case Run(t, now, pick) =>
      if t in s.txns {
        RunTracks(s, t, now, pick);
        RunOnlyOwn(s, t, now, pick);
        TracksWith(s, t, RunStep(s, t, now, pick).txns[t]);
      }
    case End(t, keep) =>
      if t in s.txns && !Over(s.txns[t]) {
        if keep && s.txns[t].phase.Next? {
          forall u | u in Commit(s, t).txns ensures Tracks(Commit(s, t), Commit(s, t).txns[u]) {
            CommitTracks(s, t, u);
          }
        } else {
          EndedTracks(s, s.txns[t]);
          TracksWith(s, t, Ended(s.txns[t], RolledBack));
        }
      }
  }

  lemma {:induction false} EveryRunTracked(s0: State, run: seq<Action>)
    requires Init(s0)
    ensures Tracked(Exec(s0, run))
  {
    if run != [] {
      EveryRunTracked(s0, run[..|run| - 1]);
      StepTracked(Exec(s0, run[..|run| - 1]), run[|run| - 1]);
    }
  }
}
