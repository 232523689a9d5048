/** What a committed edit did, why the others were refused, and that nothing else stops one. */
module EditOutcomes {
  import opened Wrappers
  import opened Tables
  import opened TestDocuments
  import opened EditProtocol
  import TestStore

  // ---- What one program does to the document ------------------------------------------------

  /** The rows of a list that a transaction has inserted, and no other. */
  ghost predicate InsertedBy<T(!new)>(rows: map<RowId, T>, t: TxnId, given: seq<T>) {
    && (forall k: nat :: k < |given| ==> RowId(t, k) in rows && rows[RowId(t, k)] == given[k])
    && (forall r :: r in rows ==> r.txn == t && r.index < |given|)
  }

  ghost predicate Listed<T(!new)>(rows: map<RowId, T>, rows': map<RowId, T>, t: TxnId, given: Option<seq<T>>) {
    if given.Some? then InsertedBy(rows', t, given.value) else rows' == rows
  }

  /** An edit of the current version changes what its body gives and counts the version up; an archive sets the status
      of a test that is not archived; anything else does nothing. The audit row says which columns, and which
      version. */
  lemma ProgramExactly(d: Document, t: TxnId, p: Program)
    ensures Atomic(d, t, p).Some?
      <==> if p.Update? then d.row.version == p.body.version else d.row.status != Archived
    ensures Atomic(d, t, p).Some? && p.Update? ==>
      var d' := Atomic(d, t, p).value;
      && TestStore.RowEdited(d.row, d'.row, p.body)
      && Listed(d.plans, d'.plans, t, p.body.plans) && Listed(d.rules, d'.rules, t, p.body.rules)
      && AuditOf(d, p).Updated? && AuditOf(d, p).version == d'.row.version
      && TestStore.Changes(AuditOf(d, p).fields, p.body)
    ensures Atomic(d, t, p).Some? && p.Archive? ==>
      Atomic(d, t, p).value == Document(d.row.(status := Archived), d.plans, d.rules) && AuditOf(d, p) == Deleted
  {
  }

  // ---- Why a program is refused -------------------------------------------------------------

  /** The statement that ends a transaction without a commit: an edit of a version that is not the current one, or the
      last check of an edit that has found something missing. */
  ghost predicate Refuses(s: State, t: TxnId)
    requires t in s.txns
  {
    var x := s.txns[t];
    && x.program.Update?
    && (|| (x.phase.Guard? && x.program.body.version != s.doc.row.version)
        || (x.phase.CheckRepos? && x.phase.done >= |PlansToCheck(x)| && x.problems != []))
  }

  lemma RunRefuses(s: State, t: TxnId, answer: RowOrder)
    requires t in s.txns && TxnOk(s, t, s.txns[t]) && !Over(s.txns[t].phase)
    ensures t in RunStep(s, t, answer).txns
    ensures s.txns[t].program.Update? ==> (RunStep(s, t, answer).txns[t].phase.RolledBack? <==> Refuses(s, t))
    ensures RunStep(s, t, answer).txns[t].phase.RolledBack? ==> s.txns[t].program.Update? || s.txns[t].phase.CheckRepos?
  {
    hide PlanRowsFree, RuleRowsFree, See, IsListing, IsRuleListing, PlanRows, RuleRows, Patched, Fields;
  }

  /** The edit asks for a pool or a repository that does not exist now. */
  ghost predicate Missing(s: State, p: Program, id: Id) {
    && p.Update?
    && (|| (p.body.configuration.Some? && p.body.configuration.value.pool == id && id !in s.pools)
        || (p.body.plans.Some? && id !in s.repos && exists q :: q in p.body.plans.value && q.repo == id))
  }

  /** What the document it read refers to exists. */
  ghost predicate SeenExist(s: State, x: Txn) {
    && (x.seenRow.Some? ==> x.seenRow.value.configuration.pool in s.pools)
    && (x.seenPlans.Some? ==> forall q :: q in x.seenPlans.value ==> q.repo in s.repos)
  }

  /** Only edits are checked, and an edit that comes to its end has written. */
  ghost predicate OnCourse(x: Txn) {
    && (x.phase.CheckPool? || x.phase.CheckRepos? ==> x.program.Update?)
    && (x.phase.Ending? && x.program.Update? ==> x.row.Some?)
    && (x.phase.Committed? && x.program.Update? ==> x.phase.wrote)
  }

  lemma ListedExist(s: State, answer: seq<PlanSpec>)
    requires IsListing(answer, s.doc.plans) && References(s.doc, s.pools, s.repos)
    ensures forall q :: q in answer ==> q.repo in s.repos
  {
    forall q | q in answer ensures q.repo in s.repos {
      var i :| 0 <= i < |answer| && answer[i] == q;
    }
  }

  lemma RunReadsExisting(s: State, t: TxnId, answer: RowOrder)
    requires t in s.txns && TxnOk(s, t, s.txns[t]) && SeenExist(s, s.txns[t]) && References(s.doc, s.pools, s.repos)
    requires s.txns[t].phase.ReadRow? || s.txns[t].phase.ReadPlans? || s.txns[t].phase.ReadRules?
    ensures t in RunStep(s, t, answer).txns
    ensures var x, y := s.txns[t], RunStep(s, t, answer).txns[t];
      y.program == x.program && y.problems == x.problems && SeenExist(s, y) && OnCourse(y)
  {
    hide IsListing, IsRuleListing;
    SeeClean(s.doc.plans);
    if IsListing(answer.plans, s.doc.plans) {
      ListedExist(s, answer.plans);
    }
    hide See, References;
  }

  lemma RunChecks(s: State, t: TxnId, answer: RowOrder)
    requires t in s.txns && SeenExist(s, s.txns[t]) && OnCourse(s.txns[t])
    requires s.txns[t].phase.CheckPool? || s.txns[t].phase.CheckRepos?
    ensures t in RunStep(s, t, answer).txns
    ensures var x, y := s.txns[t], RunStep(s, t, answer).txns[t];
      && y.program == x.program && SeenExist(s, y) && OnCourse(y)
      && forall id :: id in y.problems ==> id in x.problems || Missing(s, x.program, id)
  {
  }

  lemma RunGuards(s: State, t: TxnId, answer: RowOrder)
    requires t in s.txns && SeenExist(s, s.txns[t]) && s.txns[t].phase.Guard?
    ensures t in RunStep(s, t, answer).txns
    ensures var x, y := s.txns[t], RunStep(s, t, answer).txns[t];
      y.program == x.program && y.problems == x.problems && SeenExist(s, y) && OnCourse(y)
  {
    hide Patched, PlanRowsFree, RuleRowsFree, See, IsListing, IsRuleListing;
  }

  lemma RunReplaces(s: State, t: TxnId, answer: RowOrder)
    requires t in s.txns && SeenExist(s, s.txns[t])
    requires var p := s.txns[t].phase; p.DeletePlans? || p.InsertPlan? || p.DeleteRules? || p.InsertRule?
    ensures t in RunStep(s, t, answer).txns
    ensures var x, y := s.txns[t], RunStep(s, t, answer).txns[t];
      y.program == x.program && y.problems == x.problems && SeenExist(s, y) && OnCourse(y)
  {
    hide PlanRowsFree, RuleRowsFree, See, Remove, Put, IsListing, IsRuleListing;
  }

  lemma RunEnds(s: State, t: TxnId, answer: RowOrder)
    requires t in s.txns && SeenExist(s, s.txns[t]) && OnCourse(s.txns[t])
    requires var p := s.txns[t].phase; p.RecordAudit? || p.Ending? || Over(p)
    ensures t in RunStep(s, t, answer).txns
    ensures var x, y := s.txns[t], RunStep(s, t, answer).txns[t];
      y.program == x.program && y.problems == x.problems && SeenExist(s, y) && OnCourse(y)
  {
    hide Fields, See, PlanRowsFree, RuleRowsFree, IsListing, IsRuleListing;
  }

  /** One statement of the transaction keeps it on course, and finds missing only what is. */
  lemma RunOnCourse(s: State, t: TxnId, answer: RowOrder)
    requires t in s.txns && TxnOk(s, t, s.txns[t]) && References(s.doc, s.pools, s.repos)
    requires SeenExist(s, s.txns[t]) && OnCourse(s.txns[t])
    ensures t in RunStep(s, t, answer).txns
    ensures var x, y := s.txns[t], RunStep(s, t, answer).txns[t];
      && y.program == x.program && SeenExist(s, y) && OnCourse(y)
      && forall id :: id in y.problems ==> id in x.problems || Missing(s, x.program, id)
  {
    hide RunStep, TxnOk, References, SeenExist, OnCourse;
    var p := s.txns[t].phase;
    if p.ReadRow? || p.ReadPlans? || p.ReadRules? {
      RunReadsExisting(s, t, answer);
    } else if p.CheckPool? || p.CheckRepos? {
      RunChecks(s, t, answer);
    } else if p.Guard? {
      RunGuards(s, t, answer);
    } else if p.RecordAudit? || p.Ending? || Over(p) {
      RunEnds(s, t, answer);
    } else {
      RunReplaces(s, t, answer);
    }
  }

  // ---- Every run ----------------------------------------------------------------------------

  /** At some moment after the transaction began, something it asks for did not exist. */
  ghost predicate MissedAt(s0: State, run: seq<Action>, m: nat, t: TxnId, p: Program, id: Id) {
    m <= |run| && t in Exec(s0, run[..m]).txns && Missing(Exec(s0, run[..m]), p, id)
  }

  ghost predicate Missed(s0: State, run: seq<Action>, t: TxnId, p: Program, id: Id) {
    exists m: nat :: MissedAt(s0, run, m, t, p, id)
  }

  /** Action `i` ended the transaction: its connection failed, or its edit was of a version that was not the current one
      then, or something its edit asks for had been missing. */
  ghost predicate EndedBy(s0: State, run: seq<Action>, i: nat, t: TxnId, p: Program) {
    && i < |run|
    && (|| run[i] == Fail(t)
        || (run[i].Run? && run[i].t == t && p.Update? && p.body.version != Exec(s0, run[..i]).doc.row.version)
        || (run[i].Run? && run[i].t == t && exists id :: Missed(s0, run, t, p, id)))
  }

  ghost predicate Explained(s0: State, run: seq<Action>, s: State, t: TxnId, x: Txn) {
    && SeenExist(s, x) && OnCourse(x)
    && (forall id :: id in x.problems ==> Missed(s0, run, t, x.program, id))
    && (x.phase.RolledBack? ==> exists i: nat :: EndedBy(s0, run, i, t, x.program))
  }

  lemma MissedStays(s0: State, front: seq<Action>, a: Action, t: TxnId, p: Program, id: Id)
    requires Missed(s0, front, t, p, id)
    ensures Missed(s0, front + [a], t, p, id)
  {
    hide Missing, Exec;
    var m: nat :| MissedAt(s0, front, m, t, p, id);
    assert (front + [a])[..m] == front[..m];
    assert MissedAt(s0, front + [a], m, t, p, id);
  }

  lemma MissedNow(s0: State, front: seq<Action>, a: Action, t: TxnId, p: Program, id: Id)
    requires t in Exec(s0, front).txns && Missing(Exec(s0, front), p, id)
    ensures Missed(s0, front + [a], t, p, id)
  {
    hide Missing, Exec;
    assert (front + [a])[..|front|] == front;
    assert MissedAt(s0, front + [a], |front|, t, p, id);
  }

  lemma EndedStays(s0: State, front: seq<Action>, a: Action, i: nat, t: TxnId, p: Program)
    requires EndedBy(s0, front, i, t, p)
    ensures EndedBy(s0, front + [a], i, t, p)
  {
    hide Missed, Exec;
    assert (front + [a])[..i] == front[..i];
    if id :| Missed(s0, front, t, p, id) {
      MissedStays(s0, front, a, t, p, id);
    }
  }

  /** The transaction's own statement. */
  lemma RunExplained(s0: State, front: seq<Action>, a: Action, t: TxnId)
    requires var s := Exec(s0, front);
      && a.Run? && a.t == t && t in s.txns && TxnOk(s, t, s.txns[t]) && References(s.doc, s.pools, s.repos)
      && Explained(s0, front, s, t, s.txns[t])
    ensures var s' := RunStep(Exec(s0, front), t, a.answer);
      t in s'.txns && Explained(s0, front + [a], s', t, s'.txns[t])
  {
    var s := Exec(s0, front);
    var x, s' := s.txns[t], RunStep(s, t, a.answer);
    RunOnCourse(s, t, a.answer);
    if !Over(x.phase) {
      RunRefuses(s, t, a.answer);
    }
    RunGrowsNothing(s, t, a.answer);
    var y, run := s'.txns[t], front + [a];
    assert run[..|front|] == front;
    hide Exec, Missed, TxnOk, References, RunStep, OnCourse;
    forall id | id in y.problems ensures Missed(s0, run, t, y.program, id) {
      if id in x.problems {
        MissedStays(s0, front, a, t, x.program, id);
      } else {
        MissedNow(s0, front, a, t, x.program, id);
      }
    }
    if y.phase.RolledBack? {
      if x.phase.RolledBack? {
        var i: nat :| EndedBy(s0, front, i, t, x.program);
        EndedStays(s0, front, a, i, t, x.program);
      } else {
        RefusalExplained(s0, front, a, t, x);
      }
    }
  }

  lemma RefusalExplained(s0: State, front: seq<Action>, a: Action, t: TxnId, x: Txn)
    requires a.Run? && a.t == t && t in Exec(s0, front).txns && x == Exec(s0, front).txns[t]
    requires Refuses(Exec(s0, front), t) && forall id :: id in x.problems ==> Missed(s0, front, t, x.program, id)
    ensures EndedBy(s0, front + [a], |front|, t, x.program)
  {
    hide Exec, Missed;
    assert (front + [a])[..|front|] == front;
    if x.problems != [] {
      MissedStays(s0, front, a, t, x.program, x.problems[0]);
    }
  }

  lemma RunGrowsNothing(s: State, t: TxnId, answer: RowOrder)
    requires t in s.txns
    ensures RunStep(s, t, answer).pools == s.pools && RunStep(s, t, answer).repos == s.repos
    ensures Over(s.txns[t].phase) ==> RunStep(s, t, answer) == s
  {
    hide PlanRowsFree, RuleRowsFree, See, IsListing, IsRuleListing;
  }

  /** A step of another transaction, or a failure, or the world growing. */
  lemma OtherExplained(s0: State, front: seq<Action>, a: Action, t: TxnId)
    requires var s := Exec(s0, front); t in s.txns && Explained(s0, front, s, t, s.txns[t])
    requires !(a.Run? && a.t == t)
    ensures var s' := Step(Exec(s0, front), a); t in s'.txns && Explained(s0, front + [a], s', t, s'.txns[t])
  {
    var s := Exec(s0, front);
    var x := s.txns[t];
    if a.Run? && a.t in s.txns {
      RunLeavesOthers(s, a.t, a.answer, t);
      RunGrowsNothing(s, a.t, a.answer);
    }
    hide Exec, Missed, RunStep;
    forall id | id in x.problems ensures Missed(s0, front + [a], t, x.program, id) {
      MissedStays(s0, front, a, t, x.program, id);
    }
    if x.phase.RolledBack? {
      var i: nat :| EndedBy(s0, front, i, t, x.program);
      EndedStays(s0, front, a, i, t, x.program);
    }
    if a == Fail(t) {
      assert EndedBy(s0, front + [a], |front|, t, x.program);
    }
  }

  lemma RunLeavesOthers(s: State, t: TxnId, answer: RowOrder, u: TxnId)
    requires t in s.txns && u in s.txns && u != t
    ensures u in RunStep(s, t, answer).txns && RunStep(s, t, answer).txns[u] == s.txns[u]
  {
    hide PlanRowsFree, RuleRowsFree, See, IsListing, IsRuleListing;
  }

  lemma RunAddsNobody(s: State, t: TxnId, answer: RowOrder)
    requires t in s.txns
    ensures RunStep(s, t, answer).txns.Keys == s.txns.Keys
  {
    hide PlanRowsFree, RuleRowsFree, See, IsListing, IsRuleListing;
  }

  lemma NewExplained(s0: State, run: seq<Action>, s: State, a: Action, t: TxnId)
    requires t !in s.txns && t in Step(s, a).txns
    ensures Explained(s0, run, Step(s, a), t, Step(s, a).txns[t])
  {
    if a.Run? && a.t in s.txns {
      RunAddsNobody(s, a.t, a.answer);
    }
    hide RunStep, Exec, Missed;
  }

  /** In every run: a transaction that was rolled back lost its connection, or its edit expected a version that was not
      the current one when it came to its guarded UPDATE, or asked for something that did not exist after it had begun.
      An edit that was committed has written. */
  lemma {:induction false} EveryRefusalHasAReason(s0: State, run: seq<Action>, t: TxnId)
    requires Init(s0) && t in Exec(s0, run).txns
    ensures Explained(s0, run, Exec(s0, run), t, Exec(s0, run).txns[t])
  {
    var front, a := run[..|run| - 1], run[|run| - 1];
    assert run == front + [a];
    var s := Exec(s0, front);
    assert Exec(s0, run) == Step(s, a);
    Reachable(s0, front);
    if t !in s.txns {
      NewExplained(s0, run, s, a, t);
    } else {
      EveryRefusalHasAReason(s0, front, t);
      assert TxnOk(s, t, s.txns[t]);
      hide Exec, Explained, TxnOk, RunStep, Init;
      if a.Run? && a.t == t {
        RunExplained(s0, front, a, t);
      } else {
        OtherExplained(s0, front, a, t);
      }
    }
  }

  // ---- And nothing else stops one -----------------------------------------------------------

  /** How far a transaction has to go: stages, and statements within one. */
  function Stage(p: Phase): nat {
    match p
    case ReadRow => 12
    case ReadPlans => 11
    case ReadRules => 10
    case CheckPool => 9
    case CheckRepos(_) => 8
    case Guard => 7
    case DeletePlans => 6
    case InsertPlan(_) => 5
    case DeleteRules => 4
    case InsertRule(_) => 3
    case RecordAudit => 2
    case Ending => 1
    case _ => 0
  }

  function Within(x: Txn): int {
    match x.phase
    case CheckRepos(k) => |PlansToCheck(x)| - k
    case InsertPlan(k) => |NewPlans(x.program)| - k
    case InsertRule(k) => |NewRules(x.program)| - k
    case _ => 0
  }

  /** What a statement may have to wait for: the row lock, at the guarded UPDATE; and the database answers a SELECT with
      a listing of the rows. */
  ghost predicate Ready(s: State, t: TxnId, answer: RowOrder)
    requires t in s.txns
  {
    var x := s.txns[t];
    && (x.phase.Guard? ==> s.lock == None)
    && (x.phase.ReadPlans? ==> IsListing(answer.plans, See(s.doc.plans, x.plans)))
    && (x.phase.ReadRules? ==> IsRuleListing(answer.rules, See(s.doc.rules, x.rules)))
  }

  /** Each statement that need not wait brings the transaction nearer its end, and the last one commits. */
  lemma StatementAdvances(s: State, t: TxnId, answer: RowOrder)
    requires t in s.txns && TxnOk(s, t, s.txns[t]) && !Over(s.txns[t].phase) && Ready(s, t, answer)
    requires s.txns[t].phase.DeletePlans? ==> PlanRowsFree(s, t)
    requires s.txns[t].phase.DeleteRules? ==> RuleRowsFree(s, t)
    ensures t in RunStep(s, t, answer).txns
    ensures var x, y := s.txns[t], RunStep(s, t, answer).txns[t];
      && (Stage(y.phase) < Stage(x.phase) || (Stage(y.phase) == Stage(x.phase) && 0 <= Within(y) < Within(x)))
      && (x.phase.Ending? ==> y.phase.Committed?)
  {
    hide IsListing, IsRuleListing, PlanRowsFree, RuleRowsFree, See, PlanRows, RuleRows, Patched, Fields, Progress;
  }

  /** So in every run a transaction waits for nobody but the holder of the row lock. */
  lemma OnlyTheLockStops(s0: State, run: seq<Action>, t: TxnId, answer: RowOrder)
    requires Init(s0) && t in Exec(s0, run).txns
    requires !Over(Exec(s0, run).txns[t].phase) && Ready(Exec(s0, run), t, answer)
    ensures t in Exec(s0, run + [Run(t, answer)]).txns
    ensures var x, y := Exec(s0, run).txns[t], Exec(s0, run + [Run(t, answer)]).txns[t];
      && (Stage(y.phase) < Stage(x.phase) || (Stage(y.phase) == Stage(x.phase) && 0 <= Within(y) < Within(x)))
      && (x.phase.Ending? ==> y.phase.Committed?)
  {
    Reachable(s0, run);
    var s := Exec(s0, run);
    assert TxnOk(s, t, s.txns[t]);
    assert (run + [Run(t, answer)])[..|run|] == run;
    RowsFree(s0.doc, s, t);
    assert Exec(s0, run + [Run(t, answer)]) == RunStep(s, t, answer);
    hide Ready, TxnOk, Inv, Exec, RunStep, PlanRowsFree, RuleRowsFree, Within, Stage;
    StatementAdvances(s, t, answer);
  }

  lemma RowsFree(d0: Document, s: State, t: TxnId)
    requires Inv(d0, s) && t in s.txns
    ensures (s.txns[t].phase.DeletePlans? || s.txns[t].phase.DeleteRules?) ==> PlanRowsFree(s, t) && RuleRowsFree(s, t)
  {
    assert TxnOk(s, t, s.txns[t]);
    forall u | u in s.txns && u != t && s.lock == Some(t)
      ensures s.txns[u].plans == Clean() && s.txns[u].rules == Clean() {
      assert TxnOk(s, u, s.txns[u]);
    }
    hide See;
  }
}
