/** Refresh-token families: one row per login holding the hash of its live token, and a history of every
    hash it held. */
module RefreshTokens {
  import opened Wrappers

  type Org = nat

  type User = nat

  type FamilyId = nat

  type Time = int

  /** Distinct tokens have distinct digests. */
  datatype Hash = Sha256(raw: string)

  datatype Family = Family(org: Org, user: User, current: Hash, revokedAt: Option<Time>, expiresAt: Time)

  datatype HistoryRow = HistoryRow(family: FamilyId, org: Org)

  datatype Store = Store(families: map<FamilyId, Family>, history: map<Hash, HistoryRow>)

  datatype Rejection = Consumed | Revoked | Expired

  /** What a call returns or raises. Refused is the database rejecting a statement, after which only
      rollback is left. */
  datatype Answer = Issued | Rotated(token: string, user: User, org: Org) | Rejected(why: Rejection) | Refused

  datatype Call =
    | Issue(family: FamilyId, user: User, org: Org, raw: string, expiresAt: Time)
    | Rotate(raw: string, newRaw: string)

  /** One call inside a transaction scoped to an organisation, at the time it reads the clock. */
  datatype Timed = Timed(scope: Org, now: Time, call: Call)

  // ---- Statements ---------------------------------------------------------------------------

  /** The families a transaction in this scope can see. */
  function Visible(s: Store, scope: Org): set<FamilyId> {
    set id | id in s.families && s.families[id].org == scope
  }

  function Live(s: Store, scope: Org, h: Hash): set<FamilyId> {
    set id | id in Visible(s, scope) && s.families[id].current == h
  }

  /** The family the history knows the hash under, if the scope can see both rows. */
  function FamilyContaining(s: Store, scope: Org, h: Hash): Option<FamilyId> {
    if h in s.history && s.history[h].org == scope && s.history[h].family in Visible(s, scope)
      then Some(s.history[h].family) else None
  }

  function RevokedContaining(s: Store, scope: Org, h: Hash, now: Time): Store {
    match FamilyContaining(s, scope, h)
    case None => s
    case Some(id) => s.(families := s.families[id := s.families[id].(revokedAt := Some(now))])
  }

  function WithToken(s: Store, id: FamilyId, family: Family): Store {
    Store(s.families[id := family], s.history[family.current := HistoryRow(id, family.org)])
  }

  // ---- Calls --------------------------------------------------------------------------------

  /** Every family's live hash is in history under that family, and history agrees with the families about
      organisations. */
  ghost predicate Structured(s: Store) {
    && (forall id :: id in s.families ==>
          s.families[id].current in s.history
          && s.history[s.families[id].current] == HistoryRow(id, s.families[id].org))
    && (forall h :: h in s.history ==>
          s.history[h].family in s.families && s.history[h].org == s.families[s.history[h].family].org)
  }

  /** The live family of a hash, when there is one. */
  function FoundByHash(s: Store, scope: Org, h: Hash): Option<FamilyId> {
    var known := FamilyContaining(s, scope, h);
    if known.Some? && s.families[known.value].current == h then known else None
  }

  /** In a structured store the SELECT by live hash has at most one row, the one the history names. */
  lemma OneLiveFamily(s: Store, scope: Org, h: Hash)
    requires Structured(s)
    ensures Live(s, scope, h) == match FoundByHash(s, scope, h) case Some(id) => {id} case None => {}
  {
  }

  function AnswerOf(s: Store, step: Timed): Answer {
    match step.call
    case Issue(id, user, org, raw, _) =>
      if id in s.families || org != step.scope || Sha256(raw) in s.history then Refused else Answer.Issued
    case Rotate(raw, newRaw) =>
      match FoundByHash(s, step.scope, Sha256(raw))
      case None => Rejected(Consumed)
      case Some(id) =>
        var family := s.families[id];
        if family.revokedAt.Some? then Rejected(Revoked)
        else if family.expiresAt <= step.now then Rejected(Expired)
        else if Sha256(newRaw) in s.history then Refused
        else Rotated(newRaw, family.user, family.org)
  }

  /** What the call leaves inside its transaction, which commit keeps and rollback does not. */
  function AfterCall(s: Store, step: Timed): Store {
    match AnswerOf(s, step)
    case Issued => WithToken(s, step.call.family,
                             Family(step.call.org, step.call.user, Sha256(step.call.raw), None, step.call.expiresAt))
    case Rotated(token, _, _) =>
      var id := FoundByHash(s, step.scope, Sha256(step.call.raw)).value;
      WithToken(s, id, s.families[id].(current := Sha256(token)))
    case Rejected(why) =>
      if why == Consumed then RevokedContaining(s, step.scope, Sha256(step.call.raw), step.now) else s
    case Refused => s
  }

  lemma StructureKept(s: Store, step: Timed)
    requires Structured(s)
    ensures Structured(AfterCall(s, step))
  {
  }

  // ---- One call at a time -------------------------------------------------------------------

  function After(s: Store, steps: seq<Timed>): Store {
    if steps == [] then s else AfterCall(After(s, steps[..|steps| - 1]), steps[|steps| - 1])
  }

  function AnswerAt(s: Store, steps: seq<Timed>, i: nat): Answer
    requires i < |steps|
  {
    AnswerOf(After(s, steps[..i]), steps[i])
  }

  const EMPTY := Store(map[], map[])

  lemma {:induction false} AlwaysStructured(steps: seq<Timed>)
    ensures Structured(After(EMPTY, steps))
  {
    if steps != [] {
      AlwaysStructured(steps[..|steps| - 1]);
      StructureKept(After(EMPTY, steps[..|steps| - 1]), steps[|steps| - 1]);
    }
  }

  /** Nothing a family promised at login changes, a revocation stays, and a consumed hash stays consumed. */
  ghost predicate Keeps(s: Store, s': Store) {
    && (forall id :: id in s.families ==> id in s'.families && SameLogin(s.families[id], s'.families[id]))
    && (forall h :: h in s.history ==> h in s'.history && s'.history[h] == s.history[h])
    && (forall h :: UsedUp(s, h) ==> UsedUp(s', h))
  }

  ghost predicate SameLogin(f: Family, f': Family) {
    f'.org == f.org && f'.user == f.user && f'.expiresAt == f.expiresAt && (f.revokedAt.Some? ==> f'.revokedAt.Some?)
  }

  ghost predicate UsedUp(s: Store, h: Hash) {
    h in s.history && s.history[h].family in s.families && s.families[s.history[h].family].current != h
  }

  lemma NewTokenKeeps(s: Store, id: FamilyId, family: Family)
    requires Structured(s) && family.current !in s.history && (id in s.families ==> SameLogin(s.families[id], family))
    ensures Keeps(s, WithToken(s, id, family))
  {
  }

  lemma RevocationKeeps(s: Store, scope: Org, h: Hash, now: Time)
    ensures Keeps(s, RevokedContaining(s, scope, h, now))
  {
  }

  lemma CallKeeps(s: Store, step: Timed)
    requires Structured(s)
    ensures Keeps(s, AfterCall(s, step))
  {
    match AnswerOf(s, step)
    case Issued =>
      NewTokenKeeps(s, step.call.family,
                    Family(step.call.org, step.call.user, Sha256(step.call.raw), None, step.call.expiresAt));
    case Rotated(token, _, _) =>
      var id := FoundByHash(s, step.scope, Sha256(step.call.raw)).value;
      NewTokenKeeps(s, id, s.families[id].(current := Sha256(token)));
    case Rejected(why) => RevocationKeeps(s, step.scope, Sha256(step.call.raw), step.now);
    case Refused =>
  }

  lemma {:induction false} RunKeeps(s: Store, steps: seq<Timed>, i: nat)
    requires Structured(s) && i <= |steps|
    ensures Structured(After(s, steps[..i]))
    ensures Structured(After(s, steps)) && Keeps(After(s, steps[..i]), After(s, steps))
    decreases |steps|
  {
    if i == |steps| {
      assert steps[..i] == steps;
      if steps != [] {
        RunKeeps(s, steps[..i - 1], i - 1);
        StructureKept(After(s, steps[..i - 1]), steps[i - 1]);
      }
    } else {
      var front := steps[..|steps| - 1];
      RunKeeps(s, front, i);
      assert front[..i] == steps[..i];
      StructureKept(After(s, front), steps[|steps| - 1]);
      CallKeeps(After(s, front), steps[|steps| - 1]);
    }
  }

  /** A token rotates at most once. */
  lemma SingleUse(steps: seq<Timed>, i: nat, j: nat)
    requires i < j < |steps| && steps[i].call.Rotate? && steps[j].call.Rotate? && steps[i].call.raw == steps[j].call.raw
    requires AnswerAt(EMPTY, steps, i).Rotated?
    ensures !AnswerAt(EMPTY, steps, j).Rotated?
  {
    var h := Sha256(steps[i].call.raw);
    var before, after := After(EMPTY, steps[..i]), After(EMPTY, steps[..i + 1]);
    AlwaysStructured(steps[..i]);
    assert steps[..i + 1][..i] == steps[..i];
    assert UsedUp(after, h);
    assert steps[..j][..i + 1] == steps[..i + 1];
    RunKeeps(EMPTY, steps[..j], i + 1);
  }

  /** The family a successful call acts on. */
  function FamilyAt(s: Store, steps: seq<Timed>, i: nat): Option<FamilyId>
    requires i < |steps|
  {
    match steps[i].call
    case Issue(id, _, _, _, _) => if AnswerAt(s, steps, i).Issued? then Some(id) else None
    case Rotate(raw, _) =>
      if AnswerAt(s, steps, i).Rotated? then FoundByHash(After(s, steps[..i]), steps[i].scope, Sha256(raw)) else None
  }

  /** The family in this scope whose live token this is. */
  predicate HoldsToken(s: Store, scope: Org, raw: string, id: FamilyId) {
    id in s.families && s.families[id].org == scope && s.families[id].current == Sha256(raw)
  }

  /** A rotation at this time: rejected without a live family, or for a revoked or expired one, refused for a new token
      seen before, and else the family's live token is the new one. Only the first rejection writes: it revokes the
      family that once held the token, if the scope has one. */
  ghost predicate Rotates(s: Store, s': Store, scope: Org, now: Time, raw: string, newRaw: string, answer: Answer) {
    var (h, h') := (Sha256(raw), Sha256(newRaw));
    && (answer == Rejected(Consumed) <==> forall id :: !HoldsToken(s, scope, raw, id))
    && (forall id :: HoldsToken(s, scope, raw, id) ==>
          var f := s.families[id];
          if f.revokedAt.Some? then answer == Rejected(Revoked) && s' == s
          else if f.expiresAt <= now then answer == Rejected(Expired) && s' == s
          else if h' in s.history then answer == Refused
          else
            && answer == Rotated(newRaw, f.user, f.org)
            && s' == Store(s.families[id := Family(f.org, f.user, h', None, f.expiresAt)],
                           s.history[h' := HistoryRow(id, f.org)]))
    && (answer == Rejected(Consumed) ==> RevokesPast(s, s', scope, h, now))
  }

  /** The family that history knows the hash under is revoked, if the scope sees both rows; nothing else changes. */
  ghost predicate RevokesPast(s: Store, s': Store, scope: Org, h: Hash, now: Time) {
    if h in s.history && s.history[h].org == scope
       && s.history[h].family in s.families && s.families[s.history[h].family].org == scope
    then
      var (id, f) := (s.history[h].family, s.families[s.history[h].family]);
      s' == Store(s.families[id := Family(f.org, f.user, f.current, Some(now), f.expiresAt)], s.history)
    else s' == s
  }

  lemma RotationExactly(s: Store, scope: Org, now: Time, raw: string, newRaw: string)
    requires Structured(s)
    ensures var step := Timed(scope, now, Rotate(raw, newRaw));
      Rotates(s, AfterCall(s, step), scope, now, raw, newRaw, AnswerOf(s, step))
  {
    OneLiveFamily(s, scope, Sha256(raw));
    forall id ensures HoldsToken(s, scope, raw, id) <==> id in Live(s, scope, Sha256(raw)) {
    }
  }

  /** A login: refused for a family or a token seen before, or in another organisation; else a family and its
      history. */
  ghost predicate LogsIn(s: Store, s': Store, scope: Org, id: FamilyId, user: User, org: Org, raw: string,
                         expiresAt: Time, answer: Answer) {
    if id in s.families || Sha256(raw) in s.history || org != scope then answer == Refused
    else
      && answer == Answer.Issued
      && s' == Store(s.families[id := Family(org, user, Sha256(raw), None, expiresAt)],
                     s.history[Sha256(raw) := HistoryRow(id, org)])
  }

  lemma LoginExactly(s: Store, scope: Org, now: Time, id: FamilyId, user: User, org: Org, raw: string, expiresAt: Time)
    ensures var step := Timed(scope, now, Issue(id, user, org, raw, expiresAt));
      LogsIn(s, AfterCall(s, step), scope, id, user, org, raw, expiresAt, AnswerOf(s, step))
  {
  }

  /** User and organisation are those of the login along the whole chain, and no rotation succeeds at or after the
      expiry the login set. */
  lemma ChainIsTheLogin(steps: seq<Timed>, i: nat, j: nat)
    requires i < j < |steps| && steps[i].call.Issue? && steps[j].call.Rotate?
    requires AnswerAt(EMPTY, steps, i).Issued? && AnswerAt(EMPTY, steps, j).Rotated?
    requires FamilyAt(EMPTY, steps, i) == FamilyAt(EMPTY, steps, j)
    ensures var login, answer := steps[i].call, AnswerAt(EMPTY, steps, j);
      answer.user == login.user && answer.org == login.org == steps[j].scope && steps[j].now < login.expiresAt
  {
    assert steps[..i + 1][..i] == steps[..i] && steps[..j][..i + 1] == steps[..i + 1];
    AlwaysStructured(steps[..i]);
    RunKeeps(EMPTY, steps[..j], i + 1);
  }

  /** Every rotation belongs to a login: there is an earlier one of its family. */
  lemma {:induction false} EveryFamilyWasIssued(steps: seq<Timed>, id: FamilyId)
    requires id in After(EMPTY, steps).families
    ensures exists i :: 0 <= i < |steps| && FamilyAt(EMPTY, steps, i) == Some(id) && steps[i].call.Issue?
  {
    var front, last := steps[..|steps| - 1], steps[|steps| - 1];
    if id in After(EMPTY, front).families {
      EveryFamilyWasIssued(front, id);
      var i :| 0 <= i < |front| && FamilyAt(EMPTY, front, i) == Some(id) && front[i].call.Issue?;
      assert front[..i] == steps[..i] && front[i] == steps[i];
      assert FamilyAt(EMPTY, steps, i) == Some(id) && steps[i].call.Issue?;
    } else {
      AlwaysStructured(front);
      assert FamilyAt(EMPTY, steps, |front|) == Some(id);
    }
  }

  /** A rejected replay that commits revokes the family of the replayed token and leaves every other as it was. */
  lemma ReplayRevokes(s: Store, step: Timed, raw: string)
    requires Structured(s) && step.call.Rotate? && step.call.raw == raw
    requires UsedUp(s, Sha256(raw)) && s.history[Sha256(raw)].org == step.scope
    ensures AnswerOf(s, step) == Rejected(Consumed)
    ensures var id, s' := s.history[Sha256(raw)].family, AfterCall(s, step);
      && id in s'.families && s'.families[id].revokedAt == Some(step.now)
      && s'.families.Keys == s.families.Keys && s'.history == s.history
      && (forall other :: other in s.families && other != id ==> s'.families[other] == s.families[other])
  {
  }

  /** Once such a rejection has committed, no token of the family ever rotates again. */
  lemma ReplayKillsFamily(steps: seq<Timed>, i: nat, j: nat)
    requires i < j < |steps| && steps[i].call.Rotate?
    requires UsedUp(After(EMPTY, steps[..i]), Sha256(steps[i].call.raw))
    requires After(EMPTY, steps[..i]).history[Sha256(steps[i].call.raw)].org == steps[i].scope
    ensures steps[j].call.Rotate? ==>
      FamilyAt(EMPTY, steps, j) != Some(After(EMPTY, steps[..i]).history[Sha256(steps[i].call.raw)].family)
  {
    AlwaysStructured(steps[..i]);
    ReplayRevokes(After(EMPTY, steps[..i]), steps[i], steps[i].call.raw);
    assert steps[..i + 1][..i] == steps[..i] && steps[..j][..i + 1] == steps[..i + 1];
    RunKeeps(EMPTY, steps[..j], i + 1);
  }

  // ---- Transactions -------------------------------------------------------------------------

  /** Calls in one transaction. `keeps` is whether its block is left without an exception. */
  datatype Transaction = Transaction(steps: seq<Timed>, keeps: bool)

  ghost predicate Commits(s: Store, txn: Transaction) {
    txn.keeps && forall i :: 0 <= i < |txn.steps| ==> AnswerAt(s, txn.steps, i) != Refused
  }

  ghost function AfterAll(s: Store, txns: seq<Transaction>): Store {
    if txns == [] then s else
    var before, last := AfterAll(s, txns[..|txns| - 1]), txns[|txns| - 1];
    if Commits(before, last) then After(before, last.steps) else before
  }

  /** The calls that were committed, in order. */
  ghost function CommittedSteps(s: Store, txns: seq<Transaction>): seq<Timed> {
    if txns == [] then [] else
    var front, last := txns[..|txns| - 1], txns[|txns| - 1];
    CommittedSteps(s, front) + (if Commits(AfterAll(s, front), last) then last.steps else [])
  }

  lemma {:induction false} AfterConcat(s: Store, first: seq<Timed>, second: seq<Timed>)
    ensures After(s, first + second) == After(After(s, first), second)
  {
    if second == [] {
      assert first + second == first;
    } else {
      var front := second[..|second| - 1];
      AfterConcat(s, first, front);
      assert (first + second)[..|first + second| - 1] == first + front;
    }
  }

  /** What is rolled back never was: the store is that of the committed calls alone, so everything above is
      about them. */
  lemma {:induction false} RollbackVanishes(s: Store, txns: seq<Transaction>)
    ensures AfterAll(s, txns) == After(s, CommittedSteps(s, txns))
  {
    if txns != [] {
      var front, last := txns[..|txns| - 1], txns[|txns| - 1];
      RollbackVanishes(s, front);
      if Commits(AfterAll(s, front), last) {
        AfterConcat(s, CommittedSteps(s, front), last.steps);
      } else {
        assert CommittedSteps(s, front) + [] == CommittedSteps(s, front);
      }
    }
  }

  /** The call presents a hash its family no longer holds, in that family's organisation. */
  ghost predicate Replays(s: Store, step: Timed) {
    step.call.Rotate? && UsedUp(s, Sha256(step.call.raw)) && s.history[Sha256(step.call.raw)].org == step.scope
  }

  /** Of a transaction with a replay anywhere among its calls, the revocation remains if and only if the transaction
      commits. */
  lemma ReplayRevokesExactly(s: Store, txn: Transaction, i: nat, id: FamilyId)
    requires Structured(s) && i < |txn.steps| && Replays(After(s, txn.steps[..i]), txn.steps[i])
    requires id == After(s, txn.steps[..i]).history[Sha256(txn.steps[i].call.raw)].family
    requires id in s.families ==> s.families[id].revokedAt.None?
    ensures var s' := AfterAll(s, [txn]);
      (id in s'.families && s'.families[id].revokedAt.Some?)
      <==> (txn.keeps && forall j :: 0 <= j < |txn.steps| ==> AnswerAt(s, txn.steps, j) != Refused)
  {
    var steps := txn.steps;
    RunKeeps(s, steps, i);
    RunKeeps(s, steps, i + 1);
    ReplayRevokes(After(s, steps[..i]), steps[i], steps[i].call.raw);
    assert steps[..i + 1][..i] == steps[..i];
    assert [txn][..0] == [];
    assert AfterAll(s, []) == s;
  }

  // ---- The pre-authentication lookup --------------------------------------------------------

  /** An organisation the UNION ALL can yield for a hash, of which LIMIT 1 keeps any one. */
  ghost predicate Candidate(s: Store, h: Hash, org: Org) {
    || (exists id :: id in s.families && s.families[id].current == h && s.families[id].org == org)
    || (h in s.history && s.history[h].org == org)
  }

  /** All candidates agree, live token or consumed, and there is one exactly for the hashes ever issued. */
  lemma LookupIsDetermined(s: Store, h: Hash)
    requires Structured(s)
    ensures (exists org :: Candidate(s, h, org)) <==> h in s.history
    ensures forall org :: Candidate(s, h, org) ==> h in s.history && org == s.history[h].org
  {
    if h in s.history {
      assert Candidate(s, h, s.history[h].org);
    }
  }

  function OrganizationFor(s: Store, h: Hash): Option<Org> {
    if h in s.history then Some(s.history[h].org) else None
  }
}
