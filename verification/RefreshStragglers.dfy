/** Which rotations a committed revocation comes too late for: those whose SELECT is already behind them. */
module RefreshStragglers {
  import opened Wrappers
  import opened Tables
  import opened RefreshTokens
  import opened RefreshProtocol
  import opened RefreshAlone
  import opened RefreshTracking
  import opened RefreshRaces
  import opened RefreshRevocation

  // ---- A SELECT after the revocation finds the token bad ------------------------------------

  /** A committed revocation is seen by everyone, over whatever they have written. */
  lemma RevocationSeen(s: State, t: TxnId, id: FamilyId)
    requires Inv(s) && t in s.txns && IsRevoked(s.families, id)
    ensures IsRevoked(View(s, s.txns[t]).families, id)
  {
    var x := s.txns[t];
    assert TxnOk(s, x);
    assert id in x.families.puts ==> RowOk(s, x, id);
  }

  /** The SELECT that lets a call use its token found a family that is not revoked, the one the history names. */
  lemma GoodFamily(s: State, t: TxnId, now: Time, pick: Option<FamilyId>, k: nat, raw: string)
    requires Tracked(s) && t in s.txns && !Used(s, t, k, raw) && Used(RunStep(s, t, now, pick), t, k, raw)
    ensures var s1 := RunStep(s, t, now, pick);
      && pick.Some? && !IsRevoked(s.families, pick.value) && t in s1.txns
      && Knows(s1, s1.txns[t], pick.value, Sha256(raw))
  {
    assert Tracks(s, s.txns[t]);
    FirstUse(s, t, now, pick, k, raw);
    ViewStructured(s, t);
    RunOnlyOwn(s, t, now, pick);
    PickedGood(s, t, now, pick, k, raw);
    hide Tracks, Tracked, RunStep, Used;
    if IsRevoked(s.families, pick.value) {
      RevocationSeen(s, t, pick.value);
    }
  }

  lemma PickedGood(s: State, t: TxnId, now: Time, pick: Option<FamilyId>, k: nat, raw: string)
    requires t in s.txns && s.txns[t].phase.Next? && k == s.txns[t].done < |s.txns[t].calls|
    requires Tracks(s, s.txns[t]) && Structured(View(s, s.txns[t]))
    requires s.txns[t].calls[k].Rotate? && s.txns[t].calls[k].raw == raw && Used(RunStep(s, t, now, pick), t, k, raw)
    requires pick.Some? && pick.value in Live(View(s, s.txns[t]), s.txns[t].scope, Sha256(raw))
    ensures !IsRevoked(View(s, s.txns[t]).families, pick.value)
    ensures var s1 := RunStep(s, t, now, pick); t in s1.txns && Knows(s1, s1.txns[t], pick.value, Sha256(raw))
  {
    hide See, FamilyLocked, Spent, CallOk;
    assert RunStep(s, t, now, pick) == FindStep(s, t, s.txns[t].calls[k], now, pick);
  }

  /** A statement leaves what its transaction has written to history, adds a hash it has not seen, or ends it. */
  lemma RunAddsHistory(s: State, t: TxnId, now: Time, pick: Option<FamilyId>)
    requires t in s.txns
    ensures t in RunStep(s, t, now, pick).txns
    ensures var x, y := s.txns[t], RunStep(s, t, now, pick).txns[t];
      || y.phase.RolledBack? || y.history == x.history
      || (x.phase.ToRecord? && x.phase.hash !in View(s, x).history
          && y.history == Put(x.history, x.phase.hash, HistoryRow(x.phase.id, x.phase.org)))
  {
    hide See, FamilyLocked, HashLocked, Live, FamilyContaining, Visible;
  }

  lemma RunKnows(s: State, t: TxnId, now: Time, pick: Option<FamilyId>, id: FamilyId, h: Hash)
    requires t in s.txns && Knows(s, s.txns[t], id, h)
    ensures var s1 := RunStep(s, t, now, pick);
      t in s1.txns && (s1.txns[t].phase.RolledBack? || Knows(s1, s1.txns[t], id, h))
  {
    var x := s.txns[t];
    RunAddsHistory(s, t, now, pick);
    RunCommitsNothing(s, t, now, pick);
    if x.phase.ToRecord? {
      SeePut(s.history, x.history, x.phase.hash, HistoryRow(x.phase.id, x.phase.org));
    }
    hide RunStep, See;
  }

  lemma EndKnows(s: State, u: TxnId, keep: bool, t: TxnId, id: FamilyId, h: Hash)
    requires Inv(s) && t in s.txns && Knows(s, s.txns[t], id, h)
    ensures var s1 := Step(s, End(u, keep));
      t in s1.txns && (s1.txns[t].phase.RolledBack? || Knows(s1, s1.txns[t], id, h))
  {
    if u in s.txns && u != t && s.txns[u].phase.Next? {
      HistoryStays(s, u, t);
    }
    if u == t {
      SeeClean(See(s.history, s.txns[t].history));
    }
    hide Inv, RunStep, See;
  }

  /** What a transaction knows of a token's family stays until it is rolled back. */
  lemma KnowsOn(s: State, a: Action, t: TxnId, id: FamilyId, h: Hash)
    requires Inv(s) && t in s.txns && Knows(s, s.txns[t], id, h)
    ensures t in Step(s, a).txns
    ensures Step(s, a).txns[t].phase.RolledBack? || Knows(Step(s, a), Step(s, a).txns[t], id, h)
  {
    match a
    case Begin(_, _, _) =>
    case Run(u, now, pick) =>
      if u in s.txns {
        RunOnlyOwn(s, u, now, pick);
        if u == t {
          RunKnows(s, t, now, pick, id, h);
        }
      }
      hide Inv, RunStep, See;
    case End(u, keep) =>
      EndKnows(s, u, keep, t, id, h);
      hide *;
  }

  lemma RevokedOn(s0: State, run: seq<Action>, m: nat, id: FamilyId)
    requires Init(s0) && m <= |run| && IsRevoked(Exec(s0, run[..m]).families, id)
    ensures IsRevoked(Exec(s0, run).families, id)
  {
    EveryInterleaving(s0, run, m);
    hide Exec, Init, Inv;
  }

  /** The transaction's call uses its token, which it knows under a family other than this. */
  ghost predicate UsedElsewhere(s: State, t: TxnId, k: nat, raw: string, id: FamilyId) {
    Used(s, t, k, raw) && exists other :: other != id && Knows(s, s.txns[t], other, Sha256(raw))
  }

  lemma StepUsesElsewhere(s: State, a: Action, t: TxnId, k: nat, raw: string, id: FamilyId)
    requires Tracked(s) && IsRevoked(s.families, id) && Used(Step(s, a), t, k, raw)
    requires Used(s, t, k, raw) ==> UsedElsewhere(s, t, k, raw, id)
    ensures UsedElsewhere(Step(s, a), t, k, raw, id)
  {
    assert t in Step(s, a).txns && !Step(s, a).txns[t].phase.RolledBack?;
    if Used(s, t, k, raw) {
      var other :| other != id && Knows(s, s.txns[t], other, Sha256(raw));
      assert t in s.txns;
      hide Step, Knows, Used;
      KnowsOn(s, a, t, other, Sha256(raw));
    } else if a.Run? && a.t == t && t in s.txns {
      hide RunStep, Knows, Used, Tracked;
      GoodFamily(s, t, a.now, a.pick, k, raw);
    } else {
      OthersUseNothing(s, a, t, k, raw);
    }
  }

  /** A call that begins to use its token after a family is revoked uses a token of another. */
  lemma {:induction false} LateUseIsElsewhere(s0: State, run: seq<Action>, m: nat, t: TxnId, k: nat, raw: string,
                                              id: FamilyId)
    requires Init(s0) && m <= |run| && IsRevoked(Exec(s0, run[..m]).families, id)
    requires !Used(Exec(s0, run[..m]), t, k, raw) && Used(Exec(s0, run), t, k, raw)
    ensures UsedElsewhere(Exec(s0, run), t, k, raw, id)
    decreases |run|
  {
    assert run[..|run|] == run;
    var front, last := run[..|run| - 1], run[|run| - 1];
    assert run == front + [last] && front[..m] == run[..m];
    Then(s0, front, last);
    EveryRunTracked(s0, front);
    RevokedOn(s0, front, m, id);
    hide Exec, Tracked, Init, Step, Used, IsRevoked, UsedElsewhere;
    if Used(Exec(s0, front), t, k, raw) {
      LateUseIsElsewhere(s0, front, m, t, k, raw, id);
    }
    StepUsesElsewhere(Exec(s0, front), last, t, k, raw, id);
  }

  // ---- So exactly the earlier ones go through -----------------------------------------------

  /** Once the revocation of a family is committed, a call that rotates one of its tokens in a transaction that commits
      is answered with a new one if and only if it had been by then, or its SELECT had found the token good by then. */
  lemma RotatesRevokedExactly(s0: State, run: seq<Action>, m: nat, t: TxnId, k: nat, raw: string, id: FamilyId)
    requires Init(s0) && m <= |run| && IsRevoked(Exec(s0, run[..m]).families, id)
    requires var s := Exec(s0, run);
      && t in s.txns && s.txns[t].phase.Committed?
      && Sha256(raw) in s.history && s.history[Sha256(raw)].family == id
    ensures var then_ := Exec(s0, run[..m]);
      Succeeded(Exec(s0, run), t, k, raw) <==> Succeeded(then_, t, k, raw) || HasRead(then_, t, k, raw)
  {
    var then_, s := Exec(s0, run[..m]), Exec(s0, run);
    EveryRunTracked(s0, run[..m]);
    EveryRunTracked(s0, run);
    UsedOrSucceeded(then_, t, k, raw);
    UsedOrSucceeded(s, t, k, raw);
    CommittedKnows(s, t);
    hide Exec, Tracked, Init, Used, Succeeded, HasRead;
    if Used(then_, t, k, raw) {
      ReadingLeadsOn(s0, run, m, t, k, raw);
    } else if Used(s, t, k, raw) {
      LateUseIsElsewhere(s0, run, m, t, k, raw, id);
    }
  }

  lemma UsedOrSucceeded(s: State, t: TxnId, k: nat, raw: string)
    requires Tracked(s)
    ensures Used(s, t, k, raw) <==> Succeeded(s, t, k, raw) || HasRead(s, t, k, raw)
    ensures HasRead(s, t, k, raw) ==> t in s.txns && !s.txns[t].phase.Committed?
  {
  }

  lemma CommittedKnows(s: State, t: TxnId)
    requires Tracked(s) && t in s.txns && s.txns[t].phase.Committed?
    ensures View(s, s.txns[t]).history == s.history
  {
    assert TxnOk(s, s.txns[t]);
    SeeClean(s.history);
  }

  /** And each of these can go through: a call whose SELECT is behind it can be answered and commit, revoked or not, as
      long as its new token is new. */
  lemma StragglerCanSucceed(s0: State, run: seq<Action>, t: TxnId, k: nat, raw: string) returns (more: seq<Action>)
    requires Init(s0)
    requires var s := Exec(s0, run);
      && HasRead(s, t, k, raw) && Current(s.txns[t], k)
      && (k == s.txns[t].done ==> Sha256(s.txns[t].calls[k].newRaw) !in View(s, s.txns[t]).history)
    ensures Succeeded(Exec(s0, run + more), t, k, raw)
    ensures forall id :: IsRevoked(Exec(s0, run).families, id) ==> IsRevoked(Exec(s0, run + more).families, id)
  {
    var s := Exec(s0, run);
    EveryRunTracked(s0, run);
    var clear := ClearOthers(s, t, t);
    var s1 := Exec(s, clear);
    AllTracked(s, clear);
    assert HasRead(s1, t, k, raw) && View(s1, s1.txns[t]) == View(s, s.txns[t]);
    AloneIsFree(s1, t);
    var rest := Finishes(s1, t, k, raw);
    more := clear + rest;
    ExecOn(s, clear, rest);
    ExecOn(s0, run, more);
    assert (run + more)[..|run|] == run;
    EveryInterleaving(s0, run + more, |run|);
  }

  lemma AloneIsFree(s: State, t: TxnId)
    requires Tracked(s) && OnlyOpen(s, t, t)
    ensures forall id :: !FamilyLocked(s, t, id)
    ensures forall h :: !HashLocked(s, t, h)
  {
    forall v | v in s.txns && v != t ensures s.txns[v].families == Clean() && s.txns[v].history == Clean() {
      assert TxnOk(s, s.txns[v]);
    }
  }

  // ---- For one ------------------------------------------------------------------------------

  function Replayer(phase: Phase): Txn {
    Txn(1, [Rotate("z", "c")], 0, phase, [], Clean(), Clean())
  }

  const REVOKED := LOGIN.(revokedAt := Some(10))

  const ANSWERED := Replayer(Next).(done := 1, answers := [Rejected(Consumed)])

  const HISTORY := map[Sha256("a") := HistoryRow(9, 1), Sha256("z") := HistoryRow(9, 1)]

  /** Token "a" of family 9 is live and "z" is consumed; transaction 1 has read the row, transaction 2 replays "z". */
  function Beside(family: Family, y: Txn): State {
    State(map[9 := family], HISTORY, map[1 := Reader("b"), 2 := y])
  }

  lemma ReplayBegins() returns (s0: State, run: seq<Action>)
    ensures Init(s0) && Exec(s0, run) == Beside(LOGIN, Replayer(Next))
  {
    s0 := State(map[9 := LOGIN], HISTORY, map[]);
    assert Exec(s0, []) == s0;
    hide Exec, Step;
    Then(s0, [], Begin(1, 1, [Rotate("a", "b")]));
    Begins(s0, 1, "b");
    run := [] + [Begin(1, 1, [Rotate("a", "b")])];
    Then(s0, run, Run(1, 10, Some(9)));
    ReadsToken(Exec(s0, run), 1, "b");
    run := run + [Run(1, 10, Some(9))];
    Then(s0, run, Begin(2, 1, [Rotate("z", "c")]));
    ReplayerBegins(Exec(s0, run));
    run := run + [Begin(2, 1, [Rotate("z", "c")])];
  }

  lemma ReplayerBegins(s: State)
    requires 2 !in s.txns
    ensures Step(s, Begin(2, 1, [Rotate("z", "c")])) == With(s, 2, Replayer(Next))
  {
  }

  lemma NotFound()
    ensures Step(Beside(LOGIN, Replayer(Next)), Run(2, 10, None)) == Beside(LOGIN, Replayer(ToRevoke))
  {
    var s := Beside(LOGIN, Replayer(Next));
    SeeClean(s.families);
    SeeClean(s.history);
    assert "a"[0] != "z"[0];
    assert Live(View(s, s.txns[2]), 1, Sha256("z")) == {};
  }

  lemma RevocationWritten()
    ensures Step(Beside(LOGIN, Replayer(ToRevoke)), Run(2, 10, None))
      == Beside(LOGIN, ANSWERED.(families := Pending(map[9 := REVOKED], {})))
  {
    var s := Beside(LOGIN, Replayer(ToRevoke));
    SeeClean(s.families);
    SeeClean(s.history);
    assert FamilyContaining(View(s, s.txns[2]), 1, Sha256("z")) == Some(9);
    assert !FamilyLocked(s, 2, 9);
    assert s.families[9].(revokedAt := Some(10)) == REVOKED;
    assert Put(Clean<FamilyId, Family>(), 9, REVOKED) == Pending(map[9 := REVOKED], {});
    assert View(s, s.txns[2]) == Public(s);
    hide View, FamilyLocked, FamilyContaining;
    var x, y := s.txns[2], ANSWERED.(families := Pending(map[9 := REVOKED], {}));
    assert Answered(x, Rejected(Consumed)).(families := Put(x.families, 9, REVOKED)) == y;
    assert RevokeStep(s, 2, Rotate("z", "c"), 10) == With(s, 2, y);
    assert With(s, 2, y) == Beside(LOGIN, y);
  }

  lemma RevocationCommitted()
    ensures Step(Beside(LOGIN, ANSWERED.(families := Pending(map[9 := REVOKED], {}))), End(2, true))
      == Beside(REVOKED, ANSWERED.(phase := Phase.Committed))
  {
    SeeClean(HISTORY);
  }

  /** The UPDATE by id does not look at the revocation either: here a family is revoked, and then rotates. */
  lemma RotatesAfterRevocation() returns (s0: State, run: seq<Action>, m: nat)
    ensures Init(s0) && m <= |run| && IsRevoked(Exec(s0, run[..m]).families, 9)
    ensures !Succeeded(Exec(s0, run[..m]), 1, 0, "a") && Succeeded(Exec(s0, run), 1, 0, "a")
  {
    hide Exec, Step, Init;
    s0, run := ReplayBegins();
    Then(s0, run, Run(2, 10, None));
    NotFound();
    run := run + [Run(2, 10, None)];
    Then(s0, run, Run(2, 10, None));
    RevocationWritten();
    run := run + [Run(2, 10, None)];
    Then(s0, run, End(2, true));
    RevocationCommitted();
    run := run + [End(2, true)];
    m := |run|;
    var s := Exec(s0, run);
    assert "a"[0] != "b"[0] && "z"[0] != "b"[0];
    SeeClean(s.history);
    var more := StragglerCanSucceed(s0, run, 1, 0, "a");
    assert (run + more)[..m] == run;
    run := run + more;
  }
}
