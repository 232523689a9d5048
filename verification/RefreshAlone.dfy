/** A login or rotation whose statements nobody interferes with comes to what the call taken whole does. */
module RefreshAlone {
  import opened Wrappers
  import opened Tables
  import opened RefreshTokens
  import opened RefreshProtocol

  lemma Then(s0: State, run: seq<Action>, a: Action)
    ensures Exec(s0, run + [a]) == Step(Exec(s0, run), a)
  {
    assert (run + [a])[..|run|] == run;
  }

  ghost predicate NobodyElseWrites(s: State, t: TxnId) {
    forall u :: u in s.txns && u != t ==> s.txns[u].families == Clean() && s.txns[u].history == Clean()
  }

  ghost predicate AtCall(s: State, t: TxnId, call: Call) {
    t in s.txns && !Over(s.txns[t]) && s.txns[t].done < |s.txns[t].calls| && s.txns[t].calls[s.txns[t].done] == call
  }

  /** What a call run whole in one transaction has come to. */
  ghost predicate Came(s: State, t: TxnId, answer: Answer, store: Store, s': State)
    requires t in s.txns
  {
    && t in s'.txns && Public(s') == Public(s)
    && (if answer == Refused then s'.txns[t].phase.RolledBack?
        else (s'.txns[t].phase.Next? && s'.txns[t].answers == s.txns[t].answers + [answer]
              && View(s', s'.txns[t]) == store))
  }

  /** The history row goes in unless its hash is there or its organisation is not the scope's. */
  lemma RecordAlone(s: State, t: TxnId, x: Txn, view: Store)
    requires t in s.txns && s.txns[t] == x && x.phase.ToRecord? && view == View(s, x) && !HashLocked(s, t, x.phase.hash)
    ensures var s', h := RecordStep(s, t), x.phase.hash;
      && t in s'.txns && s' == With(s, t, s'.txns[t]) && s'.txns[t].calls == x.calls
      && (if x.phase.org != x.scope || h in view.history then s'.txns[t].phase.RolledBack? else
          && s'.txns[t].phase.Next? && s'.txns[t].answers == x.answers + [x.phase.answer]
          && View(s', s'.txns[t]) == Store(view.families, view.history[h := HistoryRow(x.phase.id, x.phase.org)]))
  {
    SeePut(s.history, x.history, x.phase.hash, HistoryRow(x.phase.id, x.phase.org));
    hide See, HashLocked;
  }

  lemma InsertAlone(s: State, t: TxnId, x: Txn, call: Call, view: Store)
    requires t in s.txns && s.txns[t] == x && call.Issue? && NobodyElseWrites(s, t) && view == View(s, x)
    requires call.org == x.scope && call.family !in view.families
    ensures var s' := InsertFamilyStep(s, t, call);
      && t in s'.txns && Public(s') == Public(s) && NobodyElseWrites(s', t)
      && s'.txns[t].phase == ToRecord(call.family, call.org, Sha256(call.raw), Answer.Issued)
      && s'.txns[t].scope == x.scope && s'.txns[t].answers == x.answers && s'.txns[t].calls == x.calls
        && s'.txns[t].done == x.done
      && View(s', s'.txns[t])
         == Store(view.families[call.family := Family(call.org, call.user, Sha256(call.raw), None, call.expiresAt)],
                  view.history)
  {
    assert !FamilyLocked(s, t, call.family);
    SeePut(s.families, x.families, call.family, Family(call.org, call.user, Sha256(call.raw), None, call.expiresAt));
    hide See, FamilyLocked;
  }

  lemma ReplaceAlone(s: State, t: TxnId, x: Txn, call: Call, view: Store)
    requires t in s.txns && s.txns[t] == x && x.phase.ToReplace? && call.Rotate? && view == View(s, x)
    requires !FamilyLocked(s, t, x.phase.id) && x.phase.id in Visible(view, x.scope)
    ensures var s', id := ReplaceStep(s, t, call), x.phase.id;
      && t in s'.txns && s' == With(s, t, s'.txns[t]) && s'.txns[t].history == x.history
      && s'.txns[t].phase
        == ToRecord(id, x.phase.org, Sha256(call.newRaw), Rotated(call.newRaw, x.phase.user, x.phase.org))
      && s'.txns[t].scope == x.scope && s'.txns[t].answers == x.answers && s'.txns[t].calls == x.calls
        && s'.txns[t].done == x.done
      && View(s', s'.txns[t])
        == Store(view.families[id := view.families[id].(current := Sha256(call.newRaw))], view.history)
  {
    SeePut(s.families, x.families, x.phase.id, view.families[x.phase.id].(current := Sha256(call.newRaw)));
    hide See, FamilyLocked;
  }

  lemma RevokeAlone(s: State, t: TxnId, x: Txn, now: Time, call: Call, view: Store)
    requires t in s.txns && s.txns[t] == x && call.Rotate? && NobodyElseWrites(s, t) && view == View(s, x)
    ensures Came(s, t, Rejected(Consumed), RevokedContaining(view, x.scope, Sha256(call.raw), now),
                 RevokeStep(s, t, call, now))
  {
    match FamilyContaining(view, x.scope, Sha256(call.raw))
    case None =>
    case Some(id) =>
      assert !FamilyLocked(s, t, id);
      SeePut(s.families, x.families, id, view.families[id].(revokedAt := Some(now)));
      hide See, FamilyLocked;
  }

  /** The SELECT finds the family the serial call finds, and the decision is the serial one. */
  lemma FindAlone(s: State, t: TxnId, x: Txn, now: Time, call: Call, view: Store)
    requires t in s.txns && s.txns[t] == x && call.Rotate? && x.phase.Next? && view == View(s, x) && Structured(view)
    ensures var found := FoundByHash(view, x.scope, Sha256(call.raw)); var s' := FindStep(s, t, call, now, found);
      && t in s'.txns && s' == With(s, t, s'.txns[t]) && s'.txns[t].families == x.families
        && s'.txns[t].history == x.history
      && (if found.None? then s'.txns[t] == x.(phase := ToRevoke)
          else
            var family := view.families[found.value];
            if family.revokedAt.Some? then s'.txns[t] == Answered(x, Rejected(Revoked))
            else if family.expiresAt <= now then s'.txns[t] == Answered(x, Rejected(Expired))
            else s'.txns[t] == x.(phase := ToReplace(found.value, family.user, family.org)))
  {
    hide See, Structured, Live, View;
    OneLiveFamily(view, x.scope, Sha256(call.raw));
  }

  lemma ViewStructured(s: State, t: TxnId)
    requires Inv(s) && t in s.txns && s.txns[t].phase.Next?
    ensures Structured(View(s, s.txns[t]))
  {
    CommitStructured(s, t);
  }

  /** One step of transaction `t` more. */
  lemma Runs(s: State, run: seq<Action>, t: TxnId, now: Time, pick: Option<FamilyId>, call: Call)
    requires AtCall(Exec(s, run), t, call)
    ensures Exec(s, run + [Run(t, now, pick)]) == RunStep(Exec(s, run), t, now, pick)
  {
    Then(s, run, Run(t, now, pick));
  }

  /** INSERT of the family, then of its first hash. */
  lemma InsertThenRecord(s: State, t: TxnId, x: Txn, call: Call, view: Store)
    requires AtCall(s, t, call) && s.txns[t] == x && call.Issue? && NobodyElseWrites(s, t) && view == View(s, x)
    requires call.org == x.scope && call.family !in view.families
    ensures var s1, family :=
      InsertFamilyStep(s, t, call), Family(call.org, call.user, Sha256(call.raw), None, call.expiresAt);
      && AtCall(s1, t, call) && s1.txns[t].phase.ToRecord?
      && Came(s, t, if family.current in view.history then Refused else Answer.Issued,
              WithToken(view, call.family, family), RecordStep(s1, t))
  {
    InsertAlone(s, t, x, call, view);
    var s1 := InsertFamilyStep(s, t, call);
    assert !HashLocked(s1, t, s1.txns[t].phase.hash);
    hide InsertFamilyStep, NobodyElseWrites, HashLocked;
    RecordAlone(s1, t, s1.txns[t], View(s1, s1.txns[t]));
    hide View, RecordStep;
  }

  /** UPDATE of the family, then INSERT of its new hash. */
  lemma ReplaceThenRecord(s: State, t: TxnId, x: Txn, call: Call, view: Store)
    requires AtCall(s, t, call) && s.txns[t] == x && call.Rotate? && x.phase.ToReplace? && NobodyElseWrites(s, t)
    requires view == View(s, x)
    requires x.phase.id in Visible(view, x.scope) && x.phase.org == x.scope
    ensures var s1, family := ReplaceStep(s, t, call), view.families[x.phase.id].(current := Sha256(call.newRaw));
      && AtCall(s1, t, call) && s1.txns[t].phase.ToRecord?
      && Came(s, t, if family.current in view.history then Refused else Rotated(call.newRaw, x.phase.user, x.phase.org),
              WithToken(view, x.phase.id, family), RecordStep(s1, t))
  {
    assert !FamilyLocked(s, t, x.phase.id);
    ReplaceAlone(s, t, x, call, view);
    var s1 := ReplaceStep(s, t, call);
    assert !HashLocked(s1, t, s1.txns[t].phase.hash);
    hide ReplaceStep, NobodyElseWrites, HashLocked, FamilyLocked;
    RecordAlone(s1, t, s1.txns[t], View(s1, s1.txns[t]));
    hide View, RecordStep;
  }

  // ---- Every schedule of the call -----------------------------------------------------------

  /** The call is over and has come to what the serial call comes to. */
  ghost predicate CameSerial(s: State, t: TxnId, now: Time, call: Call, s': State)
    requires t in s.txns
  {
    var step, view := Timed(s.txns[t].scope, now, call), View(s, s.txns[t]);
    Came(s, t, AnswerOf(view, step), AfterCall(view, step), s')
  }

  /** After the SELECT that found what is there. */
  function Found(s: State, t: TxnId, now: Time, call: Call): (found: State)
    requires t in s.txns && call.Rotate?
    ensures t in found.txns
  {
    FindStep(s, t, call, now, FoundByHash(View(s, s.txns[t]), s.txns[t].scope, Sha256(call.raw)))
  }

  ghost predicate Starts(s: State, t: TxnId, call: Call) {
    Inv(s) && AtCall(s, t, call) && s.txns[t].phase.Next? && NobodyElseWrites(s, t)
  }

  /** After `n` of its statements. */
  ghost predicate OnTheWay(s: State, t: TxnId, now: Time, call: Call, s': State, n: nat)
    requires Starts(s, t, call)
  {
    if n == 0 then s' == s
    else if call.Issue? then
      && n == 1 && call.org == s.txns[t].scope && call.family !in View(s, s.txns[t]).families
      && s' == InsertFamilyStep(s, t, call)
    else if n == 1 then s' == Found(s, t, now, call) && (s'.txns[t].phase.ToRevoke? || s'.txns[t].phase.ToReplace?)
    else n == 2 && Found(s, t, now, call).txns[t].phase.ToReplace? && s' == ReplaceStep(Found(s, t, now, call), t, call)
  }

  lemma FoundFacts(s: State, t: TxnId, now: Time, call: Call)
    requires Starts(s, t, call) && call.Rotate?
    ensures var s1, x, view := Found(s, t, now, call), s.txns[t], View(s, s.txns[t]);
      var found := FoundByHash(view, x.scope, Sha256(call.raw));
      && t in s1.txns && s1 == With(s, t, s1.txns[t]) && NobodyElseWrites(s1, t) && View(s1, s1.txns[t]) == view
      && (if found.None? then s1.txns[t] == x.(phase := ToRevoke)
          else
            var family := view.families[found.value];
            if family.revokedAt.Some? then s1.txns[t] == Answered(x, Rejected(Revoked))
            else if family.expiresAt <= now then s1.txns[t] == Answered(x, Rejected(Expired))
            else s1.txns[t] == x.(phase := ToReplace(found.value, family.user, family.org)))
  {
    var x, view := s.txns[t], View(s, s.txns[t]);
    ViewStructured(s, t);
    FindAlone(s, t, x, now, call, view);
    var s1 := Found(s, t, now, call);
    hide Inv, Structured, FindStep, FoundByHash;
    assert View(s1, s1.txns[t]) == view;
    hide View;
    assert NobodyElseWrites(s1, t);
  }

  lemma IssueAdvances(s: State, t: TxnId, now: Time, call: Call, pick: Option<FamilyId>)
    requires Starts(s, t, call) && call.Issue?
    ensures var s1 := RunStep(s, t, now, pick); OnTheWay(s, t, now, call, s1, 1) || CameSerial(s, t, now, call, s1)
    ensures OnTheWay(s, t, now, call, RunStep(s, t, now, pick), 1) ==>
      var s1 := RunStep(s, t, now, pick);
      AtCall(s1, t, call) && s1.txns[t].phase.ToRecord? && CameSerial(s, t, now, call, RecordStep(s1, t))
  {
    var x, view := s.txns[t], View(s, s.txns[t]);
    hide View, NobodyElseWrites, RecordStep, Inv, WithToken, FamilyLocked;
    if call.org == x.scope && call.family !in view.families {
      InsertNotLocked(s, t, call);
      InsertThenRecord(s, t, x, call, view);
    }
  }

  lemma InsertNotLocked(s: State, t: TxnId, call: Call)
    requires NobodyElseWrites(s, t) && call.Issue?
    ensures !FamilyLocked(s, t, call.family)
  {
  }

  /** Nothing is found: the family that holds the hash in history, if any, is revoked. */
  lemma ReplayCame(s: State, t: TxnId, now: Time, call: Call)
    requires Starts(s, t, call) && call.Rotate? && Found(s, t, now, call).txns[t].phase.ToRevoke?
    ensures CameSerial(s, t, now, call, RevokeStep(Found(s, t, now, call), t, call, now))
  {
    var s1, view := Found(s, t, now, call), View(s, s.txns[t]);
    FoundFacts(s, t, now, call);
    hide Found, View, NobodyElseWrites, Inv;
    RevokeAlone(s1, t, s1.txns[t], now, call, view);
    hide RevokeStep, RevokedContaining, FoundByHash;
  }

  lemma CameFrom(s: State, s1: State, t: TxnId, answer: Answer, store: Store, s': State)
    requires t in s.txns && t in s1.txns && Came(s1, t, answer, store, s')
    requires Public(s1) == Public(s) && s1.txns[t].answers == s.txns[t].answers
    ensures Came(s, t, answer, store, s')
  {
  }

  /** What a rotation of a good token comes to. */
  lemma GoodToken(view: Store, scope: Org, now: Time, call: Call, id: FamilyId)
    requires call.Rotate? && FoundByHash(view, scope, Sha256(call.raw)) == Some(id) && id in view.families
    requires view.families[id].revokedAt.None? && now < view.families[id].expiresAt
    ensures var family, step := view.families[id], Timed(scope, now, call);
      if Sha256(call.newRaw) in view.history then AnswerOf(view, step) == Refused else
      && AnswerOf(view, step) == Rotated(call.newRaw, family.user, family.org)
      && AfterCall(view, step) == WithToken(view, id, family.(current := Sha256(call.newRaw)))
  {
    hide FoundByHash, WithToken;
  }

  /** The family is found good: it gets the new token, unless that token has been seen before. */
  lemma SuccessCame(s: State, t: TxnId, now: Time, call: Call)
    requires Starts(s, t, call) && call.Rotate? && Found(s, t, now, call).txns[t].phase.ToReplace?
    ensures var s2 := ReplaceStep(Found(s, t, now, call), t, call);
      AtCall(s2, t, call) && s2.txns[t].phase.ToRecord? && CameSerial(s, t, now, call, RecordStep(s2, t))
  {
    var s1, view, x := Found(s, t, now, call), View(s, s.txns[t]), s.txns[t];
    FoundFacts(s, t, now, call);
    hide Found, View, NobodyElseWrites, Inv, WithToken, ReplaceStep, RecordStep, Came;
    var id := s1.txns[t].phase.id;
    GoodToken(view, x.scope, now, call, id);
    ReplaceThenRecord(s1, t, s1.txns[t], call, view);
    hide FoundByHash, AnswerOf, AfterCall;
    var s3, family := RecordStep(ReplaceStep(s1, t, call), t), view.families[id].(current := Sha256(call.newRaw));
    if Sha256(call.newRaw) in view.history {
      RefusedCame(s1, t, WithToken(view, id, family), AfterCall(view, Timed(x.scope, now, call)), s3);
      CameFrom(s, s1, t, Refused, AfterCall(view, Timed(x.scope, now, call)), s3);
    } else {
      CameFrom(s, s1, t, Rotated(call.newRaw, family.user, family.org), WithToken(view, id, family), s3);
    }
  }

  lemma RefusedCame(s: State, t: TxnId, store: Store, other: Store, s': State)
    requires t in s.txns && Came(s, t, Refused, store, s')
    ensures Came(s, t, Refused, other, s')
  {
  }

  /** The family is found revoked or expired. */
  lemma RejectionCame(s: State, t: TxnId, now: Time, call: Call)
    requires Starts(s, t, call) && call.Rotate?
    requires !Found(s, t, now, call).txns[t].phase.ToReplace? && !Found(s, t, now, call).txns[t].phase.ToRevoke?
    ensures CameSerial(s, t, now, call, Found(s, t, now, call))
  {
    FoundFacts(s, t, now, call);
    hide Found, View, NobodyElseWrites, Inv, FoundByHash;
  }

  /** Whichever row is offered first, the SELECT waits for nothing and finds what there is or is not run. */
  lemma FindAny(s: State, t: TxnId, now: Time, call: Call, pick: Option<FamilyId>)
    requires Starts(s, t, call) && call.Rotate?
    ensures FindStep(s, t, call, now, pick) == s || FindStep(s, t, call, now, pick) == Found(s, t, now, call)
  {
    ViewStructured(s, t);
    OneLiveFamily(View(s, s.txns[t]), s.txns[t].scope, Sha256(call.raw));
    hide View, Inv, Structured, Live, FoundByHash, NobodyElseWrites;
  }

  lemma FindAdvances(s: State, t: TxnId, now: Time, call: Call, pick: Option<FamilyId>)
    requires Starts(s, t, call) && call.Rotate?
    ensures var s1 := RunStep(s, t, now, pick); s1 == s || s1 == Found(s, t, now, call)
    ensures pick == FoundByHash(View(s, s.txns[t]), s.txns[t].scope, Sha256(call.raw)) ==>
      RunStep(s, t, now, pick) == Found(s, t, now, call)
    ensures OnTheWay(s, t, now, call, Found(s, t, now, call), 1) || CameSerial(s, t, now, call, Found(s, t, now, call))
  {
    FindAny(s, t, now, call, pick);
    if !Found(s, t, now, call).txns[t].phase.ToReplace? && !Found(s, t, now, call).txns[t].phase.ToRevoke? {
      RejectionCame(s, t, now, call);
    }
    hide Inv, View, NobodyElseWrites, FoundByHash, CameSerial, FindStep;
    assert RunStep(s, t, now, pick) == FindStep(s, t, call, now, pick);
  }

  lemma AfterFindAdvances(s: State, t: TxnId, now: Time, call: Call, s': State, pick: Option<FamilyId>)
    requires Starts(s, t, call) && call.Rotate? && OnTheWay(s, t, now, call, s', 1)
    ensures AtCall(s', t, call)
    ensures var s1 := RunStep(s', t, now, pick); OnTheWay(s, t, now, call, s1, 2) || CameSerial(s, t, now, call, s1)
  {
    FoundFacts(s, t, now, call);
    hide Inv, View, NobodyElseWrites, FoundByHash, CameSerial, ReplaceStep, RevokeStep, Found, RunStep;
    assert AtCall(s', t, call);
    AfterFindRuns(s', t, now, call, pick);
    if s'.txns[t].phase.ToRevoke? {
      ReplayCame(s, t, now, call);
    }
  }

  lemma AfterFindRuns(s: State, t: TxnId, now: Time, call: Call, pick: Option<FamilyId>)
    requires AtCall(s, t, call) && call.Rotate? && (s.txns[t].phase.ToRevoke? || s.txns[t].phase.ToReplace?)
    ensures RunStep(s, t, now, pick)
      == if s.txns[t].phase.ToRevoke? then RevokeStep(s, t, call, now) else ReplaceStep(s, t, call)
  {
    hide RevokeStep, ReplaceStep;
  }

  lemma RecordRuns(s: State, t: TxnId, now: Time, call: Call, pick: Option<FamilyId>)
    requires AtCall(s, t, call) && s.txns[t].phase.ToRecord?
    ensures RunStep(s, t, now, pick) == RecordStep(s, t)
  {
    hide RecordStep;
  }

  lemma RotateAdvances(s: State, t: TxnId, now: Time, call: Call, s': State, n: nat, pick: Option<FamilyId>)
    requires Starts(s, t, call) && call.Rotate? && OnTheWay(s, t, now, call, s', n)
    ensures AtCall(s', t, call)
    ensures var s1 := RunStep(s', t, now, pick);
      s1 == s' || OnTheWay(s, t, now, call, s1, n + 1) || CameSerial(s, t, now, call, s1)
    ensures pick == FoundByHash(View(s, s.txns[t]), s.txns[t].scope, Sha256(call.raw)) ==>
      var s1 := RunStep(s', t, now, pick); OnTheWay(s, t, now, call, s1, n + 1) || CameSerial(s, t, now, call, s1)
  {
    hide Inv, View, NobodyElseWrites, FoundByHash, CameSerial, RecordStep, ReplaceStep, RevokeStep, RunStep, Found;
    if n == 0 {
      FindAdvances(s, t, now, call, pick);
    } else if n == 1 {
      AfterFindAdvances(s, t, now, call, s', pick);
    } else {
      SuccessCame(s, t, now, call);
      RecordRuns(s', t, now, call, pick);
    }
  }

  /** One more statement, or a row that cannot be first, or the end. */
  lemma Advances(s: State, t: TxnId, now: Time, call: Call, s': State, n: nat, pick: Option<FamilyId>)
    requires Starts(s, t, call) && OnTheWay(s, t, now, call, s', n)
    ensures AtCall(s', t, call) && n <= 2
    ensures var s1 := RunStep(s', t, now, pick);
      s1 == s' || OnTheWay(s, t, now, call, s1, n + 1) || CameSerial(s, t, now, call, s1)
    ensures (call.Issue? || pick == FoundByHash(View(s, s.txns[t]), s.txns[t].scope, Sha256(call.raw))) ==>
      var s1 := RunStep(s', t, now, pick); OnTheWay(s, t, now, call, s1, n + 1) || CameSerial(s, t, now, call, s1)
  {
    if call.Rotate? {
      RotateAdvances(s, t, now, call, s', n, pick);
    } else {
      IssueAdvances(s, t, now, call, pick);
      hide Inv, View, NobodyElseWrites, CameSerial, RecordStep, InsertFamilyStep;
      if n == 1 {
        InsertRuns(s, t, now, call, pick);
      }
    }
  }

  lemma InsertRuns(s: State, t: TxnId, now: Time, call: Call, pick: Option<FamilyId>)
    requires AtCall(s, t, call) && call.Issue? && s.txns[t].phase.Next?
    ensures RunStep(s, t, now, pick) == InsertFamilyStep(s, t, call)
  {
  }

  /** The transaction is still in the call it started in `s`. */
  ghost predicate InCall(s: State, t: TxnId, s': State)
    requires t in s.txns
  {
    t in s'.txns && !Over(s'.txns[t]) && |s'.txns[t].answers| == |s.txns[t].answers|
  }

  lemma CameIsOver(s: State, t: TxnId, now: Time, call: Call, s': State)
    requires t in s.txns && CameSerial(s, t, now, call, s')
    ensures !InCall(s, t, s')
  {
    hide View, AfterCall, AnswerOf;
  }

  /** Only one of a call's statements looks at the clock: the SELECT if it finds a row, or else the revocation. */
  lemma ClockReadOnce(s: State, t: TxnId, now: Time, call: Call, s': State, n: nat, then_: Time, pick: Option<FamilyId>)
    returns (clock: Time)
    requires Starts(s, t, call) && OnTheWay(s, t, now, call, s', n) && AtCall(s', t, call)
    ensures (clock == then_ || (n != 0 && clock == now)) && OnTheWay(s, t, clock, call, s', n)
    ensures RunStep(s', t, clock, pick) == RunStep(s', t, then_, pick)
  {
    clock := then_;
    if call.Issue? {
      hide Inv, NobodyElseWrites, View, InsertFamilyStep, RecordStep;
    } else if n != 0 {
      FoundFacts(s, t, now, call);
      FoundFacts(s, t, then_, call);
      hide Inv, NobodyElseWrites, View, FoundByHash, Found, ReplaceStep, RecordStep, RevokeStep;
      if n != 1 || !s'.txns[t].phase.ToRevoke? {
        clock := now;
        LateStatement(s', t, call, now, then_, pick);
      }
    }
  }

  /** After its SELECT has found the token good, a rotation does not ask for the time again. */
  lemma LateStatement(s: State, t: TxnId, call: Call, now: Time, then_: Time, pick: Option<FamilyId>)
    requires AtCall(s, t, call) && call.Rotate?
    requires s.txns[t].phase.ToReplace? || s.txns[t].phase.ToRecord?
    ensures RunStep(s, t, now, pick) == RunStep(s, t, then_, pick)
  {
    hide ReplaceStep, RecordStep;
  }

  /** While nobody else has written anything, every schedule of the transaction's own statements that ends its call,
      whatever the clock says at each, comes to what the call taken whole at one of those times says: its answer, and
      what the transaction then sees. */
  lemma {:induction false} EveryScheduleAsSerial(s: State, t: TxnId, call: Call, run: seq<Action>)
    returns (n: nat, now: Time)
    requires Starts(s, t, call)
    requires forall i :: 0 <= i < |run| ==> run[i].Run? && run[i].t == t
    requires forall i :: 0 <= i < |run| ==> InCall(s, t, Exec(s, run[..i]))
    ensures if run == [] then n == 0 else exists i :: 0 <= i < |run| && run[i].now == now
    ensures InCall(s, t, Exec(s, run)) ==> OnTheWay(s, t, now, call, Exec(s, run), n)
    ensures !InCall(s, t, Exec(s, run)) ==> CameSerial(s, t, now, call, Exec(s, run))
  {
    if run == [] {
      n, now := 0, 0;
      assert InCall(s, t, s);
    } else {
      var front, last := run[..|run| - 1], run[|run| - 1];
      forall i | 0 <= i < |front| ensures InCall(s, t, Exec(s, front[..i])) {
        assert front[..i] == run[..i];
      }
      var m, clock := EveryScheduleAsSerial(s, t, call, front);
      var before := Exec(s, front);
      var after := RunStep(before, t, last.now, last.pick);
      assert Exec(s, run) == after;
      hide Exec, RunStep, CameSerial, Starts, InCall, OnTheWay;
      Advances(s, t, clock, call, before, m, last.pick);
      now := ClockReadOnce(s, t, clock, call, before, m, last.now, last.pick);
      Advances(s, t, now, call, before, m, last.pick);
      assert run[|run| - 1].now == last.now && forall i :: 0 <= i < |front| ==> front[i] == run[i];
      n := if after == before then m else m + 1;
      if CameSerial(s, t, now, call, after) {
        CameIsOver(s, t, now, call, after);
      } else {
        StillInCall(s, t, now, call, after, n);
      }
    }
  }

  lemma StillInCall(s: State, t: TxnId, now: Time, call: Call, s': State, n: nat)
    requires Starts(s, t, call) && OnTheWay(s, t, now, call, s', n)
    ensures InCall(s, t, s')
  {
    if call.Issue? {
      InsertedInCall(s, t, now, call, s', n);
    } else if n != 0 {
      SelectedInCall(s, t, now, call, s', n);
    }
    hide Inv, NobodyElseWrites, Found, ReplaceStep, InsertFamilyStep;
  }

  lemma InsertedInCall(s: State, t: TxnId, now: Time, call: Call, s': State, n: nat)
    requires Starts(s, t, call) && OnTheWay(s, t, now, call, s', n) && call.Issue?
    ensures InCall(s, t, s')
  {
    hide Inv, View, NobodyElseWrites, FamilyLocked;
  }

  lemma SelectedInCall(s: State, t: TxnId, now: Time, call: Call, s': State, n: nat)
    requires Starts(s, t, call) && OnTheWay(s, t, now, call, s', n) && call.Rotate? && n != 0
    ensures InCall(s, t, s')
  {
    FoundFacts(s, t, now, call);
    var s1 := Found(s, t, now, call);
    if n == 2 {
      ReplaceInCall(s1, t, call);
    }
    hide Inv, View, FoundByHash, Found, ReplaceStep, NobodyElseWrites;
  }

  lemma ReplaceInCall(s: State, t: TxnId, call: Call)
    requires t in s.txns && s.txns[t].phase.ToReplace? && call.Rotate?
    ensures var s' := ReplaceStep(s, t, call);
      t in s'.txns && !Over(s'.txns[t]) && s'.txns[t].answers == s.txns[t].answers
  {
    hide View, FamilyLocked, Visible;
  }

  /** And there is such a schedule. */
  lemma CallAsSerial(s: State, t: TxnId, now: Time, call: Call) returns (run: seq<Action>)
    requires Starts(s, t, call)
    ensures CameSerial(s, t, now, call, Exec(s, run))
  {
    assert Exec(s, []) == s;
    run := Completes(s, t, now, call, [], 0);
  }

  lemma {:induction false} Completes(s: State, t: TxnId, now: Time, call: Call, run: seq<Action>, n: nat)
    returns (longer: seq<Action>)
    requires Starts(s, t, call) && n <= 3 && OnTheWay(s, t, now, call, Exec(s, run), n)
    ensures CameSerial(s, t, now, call, Exec(s, longer))
    decreases 3 - n
  {
    assert t in s.txns;
    hide Exec, RunStep, CameSerial, Starts, OnTheWay;
    var pick := if call.Rotate? then FoundByHash(View(s, s.txns[t]), s.txns[t].scope, Sha256(call.raw)) else None;
    Advances(s, t, now, call, Exec(s, run), n, pick);
    Runs(s, run, t, now, pick, call);
    longer := run + [Run(t, now, pick)];
    if !CameSerial(s, t, now, call, Exec(s, longer)) {
      longer := Completes(s, t, now, call, longer, n + 1);
    }
  }
}
