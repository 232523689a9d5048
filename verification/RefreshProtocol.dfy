/** Logins and rotations as concurrent transactions, one SQL statement a step, under READ COMMITTED. */
module RefreshProtocol {
  import opened Wrappers
  import opened Tables
  import opened RefreshTokens

  type TxnId = nat

  datatype Phase =
    | Next                                            // between calls
    | ToReplace(id: FamilyId, user: User, org: Org)   // the row it read said the token is good
    | ToRecord(id: FamilyId, org: Org, hash: Hash, answer: Answer)
    | ToRevoke
    | Committed | RolledBack

  datatype Txn = Txn(scope: Org, calls: seq<Call>, done: nat, phase: Phase, answers: seq<Answer>,
                     families: Pending<FamilyId, Family>, history: Pending<Hash, HistoryRow>)

  datatype State = State(families: map<FamilyId, Family>, history: map<Hash, HistoryRow>, txns: map<TxnId, Txn>)

  datatype Action =
    | Begin(t: TxnId, scope: Org, calls: seq<Call>)
    | Run(t: TxnId, now: Time, pick: Option<FamilyId>)   // `pick` is the row a SELECT puts first
    | End(t: TxnId, keep: bool)

  predicate Over(x: Txn) {
    x.phase.Committed? || x.phase.RolledBack?
  }

  function Public(s: State): Store {
    Store(s.families, s.history)
  }

  /** What the transaction's own statements see. */
  function View(s: State, x: Txn): Store {
    Store(See(s.families, x.families), See(s.history, x.history))
  }

  function With(s: State, t: TxnId, x: Txn): State {
    s.(txns := s.txns[t := x])
  }

  function Ended(x: Txn, phase: Phase): Txn {
    x.(phase := phase, families := Clean(), history := Clean())
  }

  function RollBack(s: State, t: TxnId): State
    requires t in s.txns
  {
    With(s, t, Ended(s.txns[t], RolledBack))
  }

  function Commit(s: State, t: TxnId): State
    requires t in s.txns
  {
    var x := s.txns[t];
    State(See(s.families, x.families), See(s.history, x.history), s.txns[t := Ended(x, Phase.Committed)])
  }

  /** Another open transaction has written the row, so this one's statement waits. */
  ghost predicate FamilyLocked(s: State, t: TxnId, id: FamilyId) {
    exists u :: u in s.txns && u != t && Touches(s.txns[u].families, id)
  }

  ghost predicate HashLocked(s: State, t: TxnId, h: Hash) {
    exists u :: u in s.txns && u != t && Touches(s.txns[u].history, h)
  }

  function Answered(x: Txn, answer: Answer): Txn {
    x.(done := x.done + 1, phase := Next, answers := x.answers + [answer])
  }

  /** INSERT of a login's family: policy, then primary key. */
  ghost function InsertFamilyStep(s: State, t: TxnId, call: Call): State
    requires t in s.txns && call.Issue?
  {
    var x := s.txns[t];
    if call.org != x.scope || call.family in View(s, x).families then RollBack(s, t)
    else if FamilyLocked(s, t, call.family) then s
    else
      var family := Family(call.org, call.user, Sha256(call.raw), None, call.expiresAt);
      With(s, t, x.(families := Put(x.families, call.family, family),
                    phase := ToRecord(call.family, call.org, Sha256(call.raw), Answer.Issued)))
  }

  /** SELECT by live hash, and what the service decides from the row. */
  function FindStep(s: State, t: TxnId, call: Call, now: Time, pick: Option<FamilyId>): State
    requires t in s.txns && call.Rotate?
  {
    var x := s.txns[t];
    var live := Live(View(s, x), x.scope, Sha256(call.raw));
    match pick
    case None => if live == {} then With(s, t, x.(phase := ToRevoke)) else s
    case Some(id) =>
      if id !in live then s else
      var family := View(s, x).families[id];
      if family.revokedAt.Some? then With(s, t, Answered(x, Rejected(Revoked)))
      else if family.expiresAt <= now then With(s, t, Answered(x, Rejected(Expired)))
      else With(s, t, x.(phase := ToReplace(id, family.user, family.org)))
  }

  /** UPDATE by family id: it waits for the row, then changes whatever version of it is there. */
  ghost function ReplaceStep(s: State, t: TxnId, call: Call): State
    requires t in s.txns && s.txns[t].phase.ToReplace? && call.Rotate?
  {
    var x := s.txns[t];
    var id, new_ := x.phase.id, Sha256(call.newRaw);
    var next := ToRecord(id, x.phase.org, new_, Rotated(call.newRaw, x.phase.user, x.phase.org));
    if FamilyLocked(s, t, id) then s
    else if id in Visible(View(s, x), x.scope) then
      With(s, t, x.(families := Put(x.families, id, View(s, x).families[id].(current := new_)), phase := next))
    else With(s, t, x.(phase := next))
  }

  /** INSERT into history: policy, primary key. */
  ghost function RecordStep(s: State, t: TxnId): State
    requires t in s.txns && s.txns[t].phase.ToRecord?
  {
    var x := s.txns[t];
    var h := x.phase.hash;
    if x.phase.org != x.scope || h in View(s, x).history then RollBack(s, t)
    else if HashLocked(s, t, h) then s
    else With(s, t, Answered(x, x.phase.answer).(history := Put(x.history, h, HistoryRow(x.phase.id, x.phase.org))))
  }

  ghost function RevokeStep(s: State, t: TxnId, call: Call, now: Time): State
    requires t in s.txns && call.Rotate?
  {
    var x := s.txns[t];
    match FamilyContaining(View(s, x), x.scope, Sha256(call.raw))
    case None => With(s, t, Answered(x, Rejected(Consumed)))
    case Some(id) =>
      if FamilyLocked(s, t, id) then s
      else
        var family := View(s, x).families[id].(revokedAt := Some(now));
        With(s, t, Answered(x, Rejected(Consumed)).(families := Put(x.families, id, family)))
  }

  ghost function RunStep(s: State, t: TxnId, now: Time, pick: Option<FamilyId>): State
    requires t in s.txns
  {
    var x := s.txns[t];
    if Over(x) || x.done >= |x.calls| then s else
    var call := x.calls[x.done];
    match x.phase
    case Next => if call.Issue? then InsertFamilyStep(s, t, call) else FindStep(s, t, call, now, pick)
    case ToReplace(_, _, _) => if call.Rotate? then ReplaceStep(s, t, call) else s
    case ToRecord(_, _, _, _) => RecordStep(s, t)
    case ToRevoke => if call.Rotate? then RevokeStep(s, t, call, now) else s
    case _ => s
  }

  ghost function Step(s: State, a: Action): State {
    match a
    case Begin(t, scope, calls) => if t in s.txns then s
      else With(s, t, Txn(scope, calls, 0, Next, [], Clean(), Clean()))
    case Run(t, now, pick) => if t in s.txns then RunStep(s, t, now, pick) else s
    case End(t, keep) =>
      if t !in s.txns || Over(s.txns[t]) then s
      else if keep && s.txns[t].phase.Next? then Commit(s, t)
      else RollBack(s, t)
  }

  ghost function Exec(s: State, run: seq<Action>): State {
    if run == [] then s else Step(Exec(s, run[..|run| - 1]), run[|run| - 1])
  }

  // ---- What every step keeps ----------------------------------------------------------------

  /** The row the transaction has written is the committed one of the same login, with its live hash kept or replaced by
      one the transaction has recorded or is about to. */
  ghost predicate RowOk(s: State, x: Txn, id: FamilyId)
    requires id in x.families.puts
  {
    var row := x.families.puts[id];
    && (id in s.families ==> SameLogin(s.families[id], row))
    && (|| (x.phase.ToRecord? && x.phase.id == id && x.phase.hash == row.current && x.phase.org == row.org)
        || (row.current in x.history.puts && x.history.puts[row.current] == HistoryRow(id, row.org))
        || (id in s.families && row.current == s.families[id].current))
  }

  ghost predicate HashOk(s: State, x: Txn, h: Hash)
    requires h in x.history.puts
  {
    var row := x.history.puts[h];
    h !in s.history && row.family in View(s, x).families && View(s, x).families[row.family].org == row.org
  }

  ghost predicate TxnOk(s: State, x: Txn) {
    && x.families.dels == {} && x.history.dels == {}
    && (Over(x) ==> x.families == Clean() && x.history == Clean())
    && (forall id :: id in x.families.puts ==> RowOk(s, x, id))
    && (forall h :: h in x.history.puts ==> HashOk(s, x, h))
    && (x.phase.ToReplace?
        ==> x.phase.id in View(s, x).families && View(s, x).families[x.phase.id].org == x.phase.org == x.scope)
    && (x.phase.ToRecord? ==> x.phase.id in View(s, x).families && View(s, x).families[x.phase.id].org == x.phase.org)
  }

  ghost predicate Apart(x: Txn, y: Txn) {
    x.families.puts.Keys !! y.families.puts.Keys && x.history.puts.Keys !! y.history.puts.Keys
  }

  ghost predicate Inv(s: State) {
    && Structured(Public(s))
    && (forall t :: t in s.txns ==> TxnOk(s, s.txns[t]))
    && (forall t, u :: t in s.txns && u in s.txns && t != u ==> Apart(s.txns[t], s.txns[u]))
  }

  lemma LocalKeeps(s: State, t: TxnId, x: Txn)
    requires Inv(s) && TxnOk(s, x)
    requires forall u :: u in s.txns && u != t ==> Apart(x, s.txns[u])
    ensures Inv(With(s, t, x))
  {
    var s' := With(s, t, x);
    forall u | u in s'.txns ensures TxnOk(s', s'.txns[u]) {
      assert u != t ==> TxnOk(s, s.txns[u]);
      SameTables(s, s', s'.txns[u]);
    }
    forall u, v | u in s'.txns && v in s'.txns && u != v ensures Apart(s'.txns[u], s'.txns[v]) {
      assert u != t && v != t ==> Apart(s.txns[u], s.txns[v]);
    }
  }

  lemma SameTables(s: State, s': State, x: Txn)
    requires TxnOk(s, x) && s'.families == s.families && s'.history == s.history
    ensures TxnOk(s', x)
  {
    forall id | id in x.families.puts ensures RowOk(s', x, id) {
      assert RowOk(s, x, id);
    }
    forall h | h in x.history.puts ensures HashOk(s', x, h) {
      assert HashOk(s, x, h);
    }
  }

  /** A change of phase, or an answer, with no write. */
  lemma PhaseKeeps(s: State, t: TxnId, x: Txn)
    requires Inv(s) && t in s.txns && x.families == s.txns[t].families && x.history == s.txns[t].history
    requires !s.txns[t].phase.ToRecord? && TxnOk(s, x)
    ensures Inv(With(s, t, x))
  {
    forall u | u in s.txns && u != t ensures Apart(x, s.txns[u]) {
      assert Apart(s.txns[t], s.txns[u]);
    }
    LocalKeeps(s, t, x);
  }

  lemma QuietOk(s: State, x: Txn, y: Txn)
    requires TxnOk(s, x) && y.families == x.families && y.history == x.history && !x.phase.ToRecord? && !Over(x)
    requires !Over(y)
    requires !y.phase.ToRecord? && y.scope == x.scope
    requires y.phase.ToReplace?
      ==> y.phase.id in View(s, x).families && View(s, x).families[y.phase.id].org == y.phase.org == x.scope
    ensures TxnOk(s, y)
  {
    forall id | id in y.families.puts ensures RowOk(s, y, id) {
      assert RowOk(s, x, id);
    }
    forall h | h in y.history.puts ensures HashOk(s, y, h) {
      assert HashOk(s, x, h);
    }
  }

  lemma RollBackKeeps(s: State, t: TxnId)
    requires Inv(s) && t in s.txns
    ensures Inv(RollBack(s, t))
  {
    LocalKeeps(s, t, Ended(s.txns[t], RolledBack));
  }

  ghost predicate PutsFamily(s: State, x: Txn, id: FamilyId, row: Family, y: Txn) {
    && !Over(x) && !x.phase.ToRecord?
    && y.families == Put(x.families, id, row) && y.history == x.history && y.scope == x.scope
    && !Over(y) && !y.phase.ToReplace? && (y.phase.ToRecord? ==> y.phase.id == id && y.phase.org == row.org)
    && (id in View(s, x).families ==> SameLogin(View(s, x).families[id], row))
    && (|| (y.phase.ToRecord? && y.phase.hash == row.current)
        || (id in View(s, x).families && View(s, x).families[id].current == row.current))
  }

  lemma PutFamilyOk(s: State, x: Txn, id: FamilyId, row: Family, y: Txn)
    requires TxnOk(s, x) && PutsFamily(s, x, id, row, y)
    ensures TxnOk(s, y)
  {
    forall i | i in y.families.puts ensures RowOk(s, y, i) {
      if i in x.families.puts {
        assert RowOk(s, x, i);
      }
    }
    forall h | h in y.history.puts ensures HashOk(s, y, h) {
      assert HashOk(s, x, h);
    }
  }

  /** Writing a family row nobody else has written. */
  lemma PutFamilyKeeps(s: State, t: TxnId, id: FamilyId, row: Family, y: Txn)
    requires Inv(s) && t in s.txns && !FamilyLocked(s, t, id) && PutsFamily(s, s.txns[t], id, row, y)
    ensures Inv(With(s, t, y))
  {
    hide Structured, TxnOk, SameLogin;
    var x := s.txns[t];
    PutFamilyOk(s, x, id, row, y);
    forall u | u in s.txns && u != t ensures Apart(y, s.txns[u]) {
      assert Apart(x, s.txns[u]) && !Touches(s.txns[u].families, id);
    }
    LocalKeeps(s, t, y);
  }

  lemma RecordKeeps(s: State, t: TxnId)
    requires Inv(s) && t in s.txns && s.txns[t].phase.ToRecord?
    ensures Inv(RecordStep(s, t))
  {
    var x := s.txns[t];
    var h := x.phase.hash;
    assert TxnOk(s, x);
    if x.phase.org != x.scope || h in View(s, x).history {
      RollBackKeeps(s, t);
    } else if !HashLocked(s, t, h) {
      var y := Answered(x, x.phase.answer).(history := Put(x.history, h, HistoryRow(x.phase.id, x.phase.org)));
      forall i | i in y.families.puts ensures RowOk(s, y, i) {
        assert RowOk(s, x, i);
      }
      forall k | k in y.history.puts ensures HashOk(s, y, k) {
        assert k != h ==> HashOk(s, x, k);
      }
      forall u | u in s.txns && u != t ensures Apart(y, s.txns[u]) {
        assert Apart(x, s.txns[u]) && !Touches(s.txns[u].history, h);
      }
      LocalKeeps(s, t, y);
    }
  }

  lemma InsertFamilyKeeps(s: State, t: TxnId, call: Call)
    requires Inv(s) && t in s.txns && call.Issue? && s.txns[t].phase.Next?
    ensures Inv(InsertFamilyStep(s, t, call))
  {
    var x := s.txns[t];
    if call.org != x.scope || call.family in View(s, x).families {
      RollBackKeeps(s, t);
    } else if !FamilyLocked(s, t, call.family) {
      var family := Family(call.org, call.user, Sha256(call.raw), None, call.expiresAt);
      PutFamilyKeeps(s, t, call.family, family,
                     x.(families := Put(x.families, call.family, family),
                        phase := ToRecord(call.family, call.org, Sha256(call.raw), Answer.Issued)));
    }
  }

  /** The SELECT and the decision change only the transaction's own phase and answers. */
  lemma FindIsQuiet(s: State, t: TxnId, call: Call, now: Time, pick: Option<FamilyId>, y: Txn)
    requires t in s.txns && call.Rotate? && s.txns[t].phase.Next? && TxnOk(s, s.txns[t])
    requires y == FindStep(s, t, call, now, pick).txns[t]
    ensures FindStep(s, t, call, now, pick) == With(s, t, y) && TxnOk(s, y)
    ensures y.families == s.txns[t].families && y.history == s.txns[t].history
  {
    hide RowOk, HashOk, See;
    assert With(s, t, s.txns[t]) == s;
    QuietOk(s, s.txns[t], y);
  }

  lemma FindKeeps(s: State, t: TxnId, call: Call, now: Time, pick: Option<FamilyId>)
    requires Inv(s) && t in s.txns && call.Rotate? && s.txns[t].phase.Next?
    ensures Inv(FindStep(s, t, call, now, pick))
  {
    hide Structured, TxnOk, Apart, Live;
    assert TxnOk(s, s.txns[t]);
    var y := FindStep(s, t, call, now, pick).txns[t];
    FindIsQuiet(s, t, call, now, pick, y);
    PhaseKeeps(s, t, y);
  }

  /** The row it read is still there and still of its organisation when the UPDATE comes to it. */
  lemma ReplacePuts(s: State, t: TxnId, call: Call, row: Family, y: Txn)
    requires t in s.txns && TxnOk(s, s.txns[t]) && s.txns[t].phase.ToReplace? && call.Rotate?
    requires !FamilyLocked(s, t, s.txns[t].phase.id)
    requires s.txns[t].phase.id in View(s, s.txns[t]).families
    requires row == View(s, s.txns[t]).families[s.txns[t].phase.id].(current := Sha256(call.newRaw))
    requires y == s.txns[t].(families := Put(s.txns[t].families, s.txns[t].phase.id, row),
                             phase := ToRecord(s.txns[t].phase.id, s.txns[t].phase.org, Sha256(call.newRaw),
                                               Rotated(call.newRaw, s.txns[t].phase.user, s.txns[t].phase.org)))
    ensures ReplaceStep(s, t, call) == With(s, t, y) && PutsFamily(s, s.txns[t], s.txns[t].phase.id, row, y)
  {
    hide RowOk, HashOk, FamilyLocked;
  }

  lemma ReplaceKeeps(s: State, t: TxnId, call: Call)
    requires Inv(s) && t in s.txns && s.txns[t].phase.ToReplace? && call.Rotate?
    ensures Inv(ReplaceStep(s, t, call))
  {
    var x := s.txns[t];
    assert TxnOk(s, x);
    var id := x.phase.id;
    if !FamilyLocked(s, t, id) {
      var row := View(s, x).families[id].(current := Sha256(call.newRaw));
      var y := x.(families := Put(x.families, id, row),
                  phase := ToRecord(id, x.phase.org, Sha256(call.newRaw),
                                    Rotated(call.newRaw, x.phase.user, x.phase.org)));
      ReplacePuts(s, t, call, row, y);
      hide *;
      PutFamilyKeeps(s, t, id, row, y);
    }
  }

  lemma RevokeKeeps(s: State, t: TxnId, call: Call, now: Time)
    requires Inv(s) && t in s.txns && s.txns[t].phase.ToRevoke? && call.Rotate?
    ensures Inv(RevokeStep(s, t, call, now))
  {
    var x := s.txns[t];
    assert TxnOk(s, x);
    match FamilyContaining(View(s, x), x.scope, Sha256(call.raw))
    case None =>
      QuietOk(s, x, Answered(x, Rejected(Consumed)));
      PhaseKeeps(s, t, Answered(x, Rejected(Consumed)));
    case Some(id) =>
      if !FamilyLocked(s, t, id) {
        var row := View(s, x).families[id].(revokedAt := Some(now));
        PutFamilyKeeps(s, t, id, row, Answered(x, Rejected(Consumed)).(families := Put(x.families, id, row)));
      }
  }

  // ---- Commit -------------------------------------------------------------------------------

  lemma CommitKeepsPromises(s: State, t: TxnId)
    requires Inv(s) && t in s.txns && s.txns[t].phase.Next?
    ensures Keeps(Public(s), Public(Commit(s, t)))
  {
    var x, s' := s.txns[t], Commit(s, t);
    assert TxnOk(s, x);
    forall id | id in s.families ensures id in s'.families && SameLogin(s.families[id], s'.families[id]) {
      assert id in x.families.puts ==> RowOk(s, x, id);
    }
    forall h | h in s.history ensures h in s'.history && s'.history[h] == s.history[h] {
      assert h in x.history.puts ==> HashOk(s, x, h);
    }
    forall h | UsedUp(Public(s), h) ensures UsedUp(Public(s'), h) {
      var id := s.history[h].family;
      if id in x.families.puts {
        assert RowOk(s, x, id);
        var current := x.families.puts[id].current;
        assert current in x.history.puts ==> HashOk(s, x, current);
      }
    }
  }

  lemma CommitStructured(s: State, t: TxnId)
    requires Inv(s) && t in s.txns && s.txns[t].phase.Next?
    ensures Structured(Public(Commit(s, t)))
  {
    var x, s' := s.txns[t], Commit(s, t);
    assert TxnOk(s, x);
    CommitKeepsPromises(s, t);
    forall id | id in s'.families ensures s'.families[id].current in s'.history
                                       && s'.history[s'.families[id].current] == HistoryRow(id, s'.families[id].org) {
      if id in x.families.puts {
        assert RowOk(s, x, id);
      }
    }
    forall h | h in s'.history
      ensures s'.history[h].family in s'.families && s'.history[h].org == s'.families[s'.history[h].family].org {
      if h in x.history.puts {
        assert HashOk(s, x, h);
      }
    }
  }

  lemma CommitKeepsOthers(s: State, t: TxnId, u: TxnId)
    requires Inv(s) && t in s.txns && s.txns[t].phase.Next? && u in s.txns && u != t
    ensures TxnOk(Commit(s, t), s.txns[u])
  {
    var x, y, s' := s.txns[t], s.txns[u], Commit(s, t);
    assert TxnOk(s, x) && TxnOk(s, y) && Apart(x, y);
    CommitKeepsPromises(s, t);
    forall id | id in View(s, y).families
      ensures id in View(s', y).families && View(s', y).families[id].org == View(s, y).families[id].org {
    }
    forall id | id in y.families.puts ensures RowOk(s', y, id) {
      assert RowOk(s, y, id);
    }
    forall h | h in y.history.puts ensures HashOk(s', y, h) {
      assert HashOk(s, y, h);
    }
  }

  lemma CommitKeeps(s: State, t: TxnId)
    requires Inv(s) && t in s.txns && s.txns[t].phase.Next?
    ensures Inv(Commit(s, t))
  {
    var s' := Commit(s, t);
    CommitStructured(s, t);
    forall u | u in s'.txns ensures TxnOk(s', s'.txns[u]) {
      if u != t {
        CommitKeepsOthers(s, t, u);
      }
    }
    forall u, v | u in s'.txns && v in s'.txns && u != v ensures Apart(s'.txns[u], s'.txns[v]) {
      assert Apart(s.txns[u], s.txns[v]);
    }
  }

  // ---- Every run ----------------------------------------------------------------------------

  lemma StepKeeps(s: State, a: Action)
    requires Inv(s)
    ensures Inv(Step(s, a)) && Keeps(Public(s), Public(Step(s, a)))
  {
    match a
    case Begin(t, scope, calls) =>
      if t !in s.txns {
        LocalKeeps(s, t, Txn(scope, calls, 0, Next, [], Clean(), Clean()));
      }
    case Run(t, now, pick) =>
      if t in s.txns {
        RunKeepsInv(s, t, now, pick);
        RunCommitsNothing(s, t, now, pick);
      }
    case End(t, keep) =>
      if t in s.txns && !Over(s.txns[t]) {
        if keep && s.txns[t].phase.Next? {
          CommitKeeps(s, t);
          CommitKeepsPromises(s, t);
        } else {
          RollBackKeeps(s, t);
        }
      }
  }

  lemma RunKeepsInv(s: State, t: TxnId, now: Time, pick: Option<FamilyId>)
    requires Inv(s) && t in s.txns
    ensures Inv(RunStep(s, t, now, pick))
  {
    hide Inv, InsertFamilyStep, FindStep, ReplaceStep, RecordStep, RevokeStep;
    var x := s.txns[t];
    if !Over(x) && x.done < |x.calls| {
      var call := x.calls[x.done];
      match x.phase
      case Next =>
        if call.Issue? {
          InsertFamilyKeeps(s, t, call);
        } else {
          FindKeeps(s, t, call, now, pick);
        }
      case ToReplace(_, _, _) => if call.Rotate? { ReplaceKeeps(s, t, call); }
      case ToRecord(_, _, _, _) => RecordKeeps(s, t);
      case ToRevoke => if call.Rotate? { RevokeKeeps(s, t, call, now); }
    }
  }

  lemma RunCommitsNothing(s: State, t: TxnId, now: Time, pick: Option<FamilyId>)
    requires t in s.txns
    ensures Public(RunStep(s, t, now, pick)) == Public(s)
  {
  }

  ghost predicate Init(s: State) {
    s.txns == map[] && Structured(Public(s))
  }

  /** In every state of every interleaving: each family's live hash is in history under that family and organisation,
      and no hash is two families'. From any point on, promises made at login hold, no revocation is cleared and no
      consumed token is live again. */
  lemma {:induction false} EveryInterleaving(s0: State, run: seq<Action>, i: nat)
    requires Init(s0) && i <= |run|
    ensures Inv(Exec(s0, run[..i])) && Inv(Exec(s0, run))
    ensures Keeps(Public(Exec(s0, run[..i])), Public(Exec(s0, run)))
    decreases |run|
  {
    if i == |run| {
      assert run[..i] == run;
      if run != [] {
        EveryInterleaving(s0, run[..i - 1], i - 1);
        StepKeeps(Exec(s0, run[..i - 1]), run[i - 1]);
      }
    } else {
      var front := run[..|run| - 1];
      EveryInterleaving(s0, front, i);
      assert front[..i] == run[..i];
      StepKeeps(Exec(s0, front), run[|run| - 1]);
    }
  }

  /** So the pre-authentication lookup has one possible answer, whenever it runs, for live and consumed tokens alike. */
  lemma LookupWheneverItRuns(s0: State, run: seq<Action>, i: nat, h: Hash, org: Org, later: Org)
    requires Init(s0) && i <= |run|
    requires Candidate(Public(Exec(s0, run[..i])), h, org) && Candidate(Public(Exec(s0, run)), h, later)
    ensures org == later
  {
    EveryInterleaving(s0, run, i);
    LookupIsDetermined(Public(Exec(s0, run[..i])), h);
    LookupIsDetermined(Public(Exec(s0, run)), h);
  }
}
