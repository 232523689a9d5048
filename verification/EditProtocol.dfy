/** Edits and archives of one test as concurrent transactions, one SQL statement a step, under READ COMMITTED. */
module EditProtocol {
  import opened Wrappers
  import opened Tables
  import opened TestDocuments

  datatype Phase =
    | ReadRow | ReadPlans | ReadRules | CheckPool | CheckRepos(done: nat)
    | Guard | DeletePlans | InsertPlan(done: nat) | DeleteRules | InsertRule(done: nat) | RecordAudit | Ending
    | Committed(wrote: bool) | RolledBack

  predicate Over(p: Phase) {
    p.Committed? || p.RolledBack?
  }

  /** One transaction: what it has read into its local variables, and what it has written and not committed. */
  datatype Txn = Txn(program: Program, phase: Phase, seenRow: Option<TestRow>, seenPlans: Option<seq<PlanSpec>>,
                     seenRules: Option<seq<RuleSpec>>, problems: seq<Id>,
                     row: Option<TestRow>, plans: Pending<RowId, PlanSpec>, rules: Pending<RowId, RuleSpec>,
                     audit: Option<Audit>)

  datatype Entry = Entry(txn: TxnId, program: Program)

  /** The committed tables for one test, the pools and repositories that exist, the holder of the row lock, the open
      transactions, and which programs have committed a write so far. */
  datatype State = State(doc: Document, audits: seq<Audit>, pools: set<Id>, repos: set<Id>,
                         lock: Option<TxnId>, txns: map<TxnId, Txn>, log: seq<Entry>)

  /** The order the database picks for the rows of a SELECT. */
  datatype RowOrder = RowOrder(plans: seq<PlanSpec>, rules: seq<RuleSpec>)

  datatype Action =
    | Start(t: TxnId, program: Program)
    | Run(t: TxnId, answer: RowOrder)        // one statement
    | Fail(t: TxnId)                         // an exception, a lost connection: rollback
    | AddPool(pool: Id)
    | AddRepo(repo: Id)

  function Fresh(p: Program): Txn {
    Txn(p, ReadRow, None, None, None, [], None, Clean(), Clean(), None)
  }

  function Ended(x: Txn, phase: Phase): Txn {
    x.(phase := phase, row := None, plans := Clean(), rules := Clean(), audit := None)
  }

  function RollBack(s: State, t: TxnId): State
    requires t in s.txns
  {
    s.(txns := s.txns[t := Ended(s.txns[t], RolledBack)], lock := if s.lock == Some(t) then None else s.lock)
  }

  function Commit(s: State, t: TxnId): State
    requires t in s.txns
  {
    var x := s.txns[t];
    s.(doc := Document(Or(x.row, s.doc.row), See(s.doc.plans, x.plans), See(s.doc.rules, x.rules)),
       audits := s.audits + (if x.audit.Some? then [x.audit.value] else []),
       lock := if s.lock == Some(t) then None else s.lock,
       log := s.log + (if x.row.Some? then [Entry(t, x.program)] else []),
       txns := s.txns[t := Ended(x, Committed(x.row.Some?))])
  }

  /** What an update is checked against: its own references where it gives them, else those it read. */
  function PoolToCheck(x: Txn): Option<Id> {
    match x.program
    case Update(b) =>
      if b.configuration.Some? then Some(b.configuration.value.pool)
      else if x.seenRow.Some? then Some(x.seenRow.value.configuration.pool)
      else None
    case Archive => None
  }

  function PlansToCheck(x: Txn): seq<PlanSpec> {
    match x.program
    case Update(b) => Or(b.plans, Or(x.seenPlans, []))
    case Archive => []
  }

  function NewPlans(p: Program): seq<PlanSpec> {
    match p case Update(b) => Or(b.plans, []) case Archive => []
  }

  function NewRules(p: Program): seq<RuleSpec> {
    match p case Update(b) => Or(b.rules, []) case Archive => []
  }

  /** An absent list is left alone: its statements are skipped. */
  function AfterGuard(p: Program): Phase {
    if p.Update? && p.body.plans.Some? then DeletePlans else AfterPlans(p)
  }

  function AfterPlans(p: Program): Phase {
    if p.Update? && p.body.rules.Some? then DeleteRules else RecordAudit
  }

  function With(s: State, t: TxnId, x: Txn): State {
    s.(txns := s.txns[t := x])
  }

  /** The guarded UPDATE waits for a row it matches to be unlocked, then locks and writes it. */
  function WriteRow(s: State, t: TxnId, row: TestRow): State
    requires t in s.txns
  {
    var x := s.txns[t];
    if s.lock.Some? then s
    else With(s.(lock := Some(t)), t, x.(row := Some(row), phase := AfterGuard(x.program)))
  }

  /** A stale version matches no row and is a conflict; archiving what is archived matches none and is nothing. */
  function GuardStep(s: State, t: TxnId): State
    requires t in s.txns
  {
    match s.txns[t].program
    case Update(b) => if s.doc.row.version == b.version then WriteRow(s, t, Patched(s.doc.row, b)) else RollBack(s, t)
    case Archive =>
      if s.doc.row.status != Archived then WriteRow(s, t, s.doc.row.(status := Archived))
      else With(s, t, s.txns[t].(phase := Ending))
  }

  /** Deleting rows waits for any other open transaction that has written one of them. */
  ghost predicate PlanRowsFree(s: State, t: TxnId)
    requires t in s.txns
  {
    forall u, r :: u in s.txns && u != t && r in See(s.doc.plans, s.txns[t].plans) ==> !Touches(s.txns[u].plans, r)
  }

  ghost predicate RuleRowsFree(s: State, t: TxnId)
    requires t in s.txns
  {
    forall u, r :: u in s.txns && u != t && r in See(s.doc.rules, s.txns[t].rules) ==> !Touches(s.txns[u].rules, r)
  }

  ghost function ReplacePlansStep(s: State, t: TxnId): State
    requires t in s.txns
  {
    var x := s.txns[t];
    match x.phase
    case DeletePlans =>
      if !PlanRowsFree(s, t) then s
      else With(s, t, x.(plans := Remove(x.plans, See(s.doc.plans, x.plans).Keys), phase := InsertPlan(0)))
    case InsertPlan(k) =>
      if k >= |NewPlans(x.program)| then With(s, t, x.(phase := AfterPlans(x.program)))
      else if NewPlans(x.program)[k].repo !in s.repos then RollBack(s, t)   // the foreign key on script_repos
      else With(s, t, x.(plans := Put(x.plans, RowId(t, k), NewPlans(x.program)[k]), phase := InsertPlan(k + 1)))
    case _ => s
  }

  ghost function ReplaceRulesStep(s: State, t: TxnId): State
    requires t in s.txns
  {
    var x := s.txns[t];
    match x.phase
    case DeleteRules =>
      if !RuleRowsFree(s, t) then s
      else With(s, t, x.(rules := Remove(x.rules, See(s.doc.rules, x.rules).Keys), phase := InsertRule(0)))
    case InsertRule(k) =>
      if k >= |NewRules(x.program)| then With(s, t, x.(phase := RecordAudit))
      else With(s, t, x.(rules := Put(x.rules, RowId(t, k), NewRules(x.program)[k]), phase := InsertRule(k + 1)))
    case _ => s
  }

  /** The audit row names the version the UPDATE returned. */
  function AuditStep(s: State, t: TxnId): State
    requires t in s.txns
  {
    var x := s.txns[t];
    if x.row.None? then s else
    var audit := match x.program case Update(b) => Updated(Fields(b), x.row.value.version) case Archive => Deleted;
    With(s, t, x.(audit := Some(audit), phase := Ending))
  }

  ghost function ReadStep(s: State, t: TxnId, answer: RowOrder): State
    requires t in s.txns
  {
    var x := s.txns[t];
    match x.phase
    case ReadRow => With(s, t, x.(seenRow := Some(Or(x.row, s.doc.row)), phase := ReadPlans))
    case ReadPlans =>
      if !IsListing(answer.plans, See(s.doc.plans, x.plans)) then s
      else With(s, t, x.(seenPlans := Some(answer.plans), phase := ReadRules))
    case ReadRules =>
      var checks := x.program.Update? && (x.program.body.configuration.Some? || x.program.body.plans.Some?);
      if !IsRuleListing(answer.rules, See(s.doc.rules, x.rules)) then s
      else With(s, t, x.(seenRules := Some(answer.rules), phase := if checks then CheckPool else Guard))
    case _ => s
  }

  /** Every unknown reference is collected before any is reported. */
  function CheckStep(s: State, t: TxnId): State
    requires t in s.txns
  {
    var x := s.txns[t];
    match x.phase
    case CheckPool =>
      var pool := PoolToCheck(x);
      With(s, t, x.(problems := if pool.Some? && pool.value !in s.pools then [pool.value] else [],
                    phase := CheckRepos(0)))
    case CheckRepos(k) =>
      if k < |PlansToCheck(x)| then
        var repo := PlansToCheck(x)[k].repo;
        With(s, t, x.(problems := x.problems + (if repo in s.repos then [] else [repo]), phase := CheckRepos(k + 1)))
      else if x.problems != [] then RollBack(s, t)
      else With(s, t, x.(phase := Guard))
    case _ => s
  }

  ghost function RunStep(s: State, t: TxnId, answer: RowOrder): State
    requires t in s.txns
  {
    match s.txns[t].phase
    case ReadRow | ReadPlans | ReadRules => ReadStep(s, t, answer)
    case CheckPool | CheckRepos(_) => CheckStep(s, t)
    case Guard => GuardStep(s, t)
    case DeletePlans | InsertPlan(_) => ReplacePlansStep(s, t)
    case DeleteRules | InsertRule(_) => ReplaceRulesStep(s, t)
    case RecordAudit => AuditStep(s, t)
    case Ending => Commit(s, t)
    case Committed(_) | RolledBack => s
  }

  ghost function Step(s: State, a: Action): State {
    match a
    case Start(t, p) => if t in s.txns then s else s.(txns := s.txns[t := Fresh(p)])
    case Run(t, answer) => if t in s.txns then RunStep(s, t, answer) else s
    case Fail(t) => if t in s.txns && !Over(s.txns[t].phase) then RollBack(s, t) else s
    case AddPool(p) => s.(pools := s.pools + {p})
    case AddRepo(r) => s.(repos := s.repos + {r})
  }

  ghost function Exec(s: State, run: seq<Action>): State {
    if run == [] then s else Step(Exec(s, run[..|run| - 1]), run[|run| - 1])
  }

  /** Just after the test was created: version 1, its references checked, one audit row, nothing open. */
  ghost predicate Init(s: State) {
    && s.doc.row.version == 1 && s.doc.row.status == Draft
    && References(s.doc, s.pools, s.repos)
    && s.audits == [Created] && s.lock == None && s.txns == map[] && s.log == []
  }

  // ---- What every step keeps ----------------------------------------------------------------

  predicate Writing(p: Phase) {
    p.DeletePlans? || p.InsertPlan? || p.DeleteRules? || p.InsertRule? || p.RecordAudit?
  }

  function PlansWritten(d: Document, t: TxnId, p: Program): Pending<RowId, PlanSpec> {
    if p.Update? && p.body.plans.Some? then Pending(PlanRows(t, p.body.plans.value), d.plans.Keys) else Clean()
  }

  function RulesWritten(d: Document, t: TxnId, p: Program): Pending<RowId, RuleSpec> {
    if p.Update? && p.body.rules.Some? then Pending(RuleRows(t, p.body.rules.value), d.rules.Keys) else Clean()
  }

  /** How far the writes of the lock's holder have got; the committed document is still the one its guard matched. */
  ghost predicate Progress(d: Document, t: TxnId, x: Txn) {
    var p := x.program;
    && Atomic(d, t, p).Some? && x.row == Some(Atomic(d, t, p).value.row)
    && (x.phase.DeletePlans? || x.phase.InsertPlan? ==> p.Update? && p.body.plans.Some?)
    && (x.phase.DeleteRules? || x.phase.InsertRule? ==> p.Update? && p.body.rules.Some?)
    && (match x.phase
        case DeletePlans => x.plans == Clean() && x.rules == Clean()
        case InsertPlan(k) =>
          k <= |NewPlans(p)| && x.plans == Pending(PlanRows(t, NewPlans(p)[..k]), d.plans.Keys) && x.rules == Clean()
        case DeleteRules => x.plans == PlansWritten(d, t, p) && x.rules == Clean()
        case InsertRule(k) =>
          k <= |NewRules(p)| && x.plans == PlansWritten(d, t, p)
            && x.rules == Pending(RuleRows(t, NewRules(p)[..k]), d.rules.Keys)
        case _ => x.plans == PlansWritten(d, t, p) && x.rules == RulesWritten(d, t, p))
    && x.audit == if x.phase.Ending? then Some(AuditOf(d, p)) else None
  }

  /** What an edit may write once its references have been checked. */
  ghost predicate Checked(s: State, x: Txn) {
    x.program.Update? ==>
      && (x.program.body.configuration.Some? ==> x.program.body.configuration.value.pool in s.pools)
      && (x.program.body.plans.Some? ==> forall p :: p in x.program.body.plans.value ==> p.repo in s.repos)
  }

  ghost predicate ChecksDone(s: State, x: Txn) {
    match x.phase
    case CheckRepos(k) =>
      x.problems == [] && x.program.Update? ==>
        && (x.program.body.configuration.Some? ==> x.program.body.configuration.value.pool in s.pools)
        && (x.program.body.plans.Some? ==>
              forall i ::
                0 <= i < k && i < |x.program.body.plans.value| ==> x.program.body.plans.value[i].repo in s.repos)
    case Guard => Checked(s, x)
    case _ => x.row.Some? ==> Checked(s, x)
  }

  ghost predicate TxnOk(s: State, t: TxnId, x: Txn) {
    && (x.row.Some? <==> s.lock == Some(t))
    && (x.row.Some? ==> (Writing(x.phase) || x.phase.Ending?) && Progress(s.doc, t, x))
    && (x.row.None? ==> !Writing(x.phase) && x.plans == Clean() && x.rules == Clean() && x.audit == None)
    && ChecksDone(s, x)
  }

  /** The document and the audit trail left by running the logged programs one at a time, each whole. */
  ghost function Replay(d: Document, log: seq<Entry>): Option<Document> {
    if log == [] then Some(d) else
    match Replay(d, log[..|log| - 1])
    case None => None
    case Some(before) => Atomic(before, log[|log| - 1].txn, log[|log| - 1].program)
  }

  ghost function Trail(d: Document, log: seq<Entry>): seq<Audit> {
    if log == [] then [] else
    match Replay(d, log[..|log| - 1])
    case None => []
    case Some(before) => Trail(d, log[..|log| - 1]) + [AuditOf(before, log[|log| - 1].program)]
  }

  ghost predicate Logged(s: State) {
    && (forall t :: t in s.txns && s.txns[t].phase == Committed(true) ==> Entry(t, s.txns[t].program) in s.log)
    && (forall e :: e in s.log ==>
          e.txn in s.txns && s.txns[e.txn].phase == Committed(true) && s.txns[e.txn].program == e.program)
    && (forall i, j :: 0 <= i < j < |s.log| ==> s.log[i].txn != s.log[j].txn)
  }

  ghost predicate Inv(d0: Document, s: State) {
    && (forall t :: t in s.txns ==> TxnOk(s, t, s.txns[t]))
    && (s.lock.Some? ==> s.lock.value in s.txns)
    && Logged(s)
    && Replay(d0, s.log) == Some(s.doc)
    && s.audits == [Created] + Trail(d0, s.log)
    && References(s.doc, s.pools, s.repos)
  }

  lemma StartKeeps(d0: Document, s: State, t: TxnId, p: Program)
    requires Inv(d0, s)
    ensures Inv(d0, Step(s, Start(t, p)))
  {
    if t !in s.txns {
      var s' := s.(txns := s.txns[t := Fresh(p)]);
      forall u | u in s'.txns ensures TxnOk(s', u, s'.txns[u]) {
        assert u != t ==> TxnOk(s, u, s.txns[u]);
      }
      assert Logged(s');
    }
  }

  lemma GrowKeeps(d0: Document, s: State, pools: set<Id>, repos: set<Id>)
    requires Inv(d0, s)
    ensures Inv(d0, s.(pools := s.pools + pools, repos := s.repos + repos))
  {
    var s' := s.(pools := s.pools + pools, repos := s.repos + repos);
    forall t | t in s.txns ensures TxnOk(s', t, s.txns[t]) {
      assert TxnOk(s, t, s.txns[t]);
    }
  }

  /** A step that changes only the local state of one open transaction. */
  lemma LocalKeeps(d0: Document, s: State, t: TxnId, x: Txn)
    requires Inv(d0, s) && t in s.txns && x.program == s.txns[t].program
    requires !Over(s.txns[t].phase) && !x.phase.Committed? && TxnOk(s, t, x)
    ensures Inv(d0, With(s, t, x))
  {
    var s' := With(s, t, x);
    forall u | u in s'.txns ensures TxnOk(s', u, s'.txns[u]) {
      assert u != t ==> TxnOk(s, u, s.txns[u]);
    }
  }

  lemma RollBackKeeps(d0: Document, s: State, t: TxnId)
    requires Inv(d0, s) && t in s.txns && !Over(s.txns[t].phase)
    ensures Inv(d0, RollBack(s, t))
  {
    var s' := RollBack(s, t);
    forall u | u in s'.txns ensures TxnOk(s', u, s'.txns[u]) {
      assert TxnOk(s, u, s.txns[u]);
    }
  }

  /** A statement that neither takes the row lock nor commits: it rolls back, or changes its own transaction only. */
  ghost predicate Local(s: State, t: TxnId, s': State)
    requires t in s.txns
  {
    || s' == RollBack(s, t)
    || (t in s'.txns && s' == With(s, t, s'.txns[t]) && s'.txns[t].program == s.txns[t].program
        && !s'.txns[t].phase.Committed? && TxnOk(s, t, s'.txns[t]))
  }

  lemma ReadLocal(s: State, t: TxnId, answer: RowOrder)
    requires t in s.txns && TxnOk(s, t, s.txns[t])
    requires s.txns[t].phase.ReadRow? || s.txns[t].phase.ReadPlans? || s.txns[t].phase.ReadRules?
    ensures Local(s, t, ReadStep(s, t, answer))
  {
    hide IsListing, IsRuleListing;
    var x := s.txns[t];
    assert With(s, t, x) == s;
    assert ReadStep(s, t, answer) == With(s, t, ReadStep(s, t, answer).txns[t]);
  }

  lemma CheckPoolOk(s: State, t: TxnId, x: Txn)
    requires TxnOk(s, t, x) && x.phase.CheckPool?
    ensures var pool := PoolToCheck(x);
      TxnOk(s, t, x.(problems := if pool.Some? && pool.value !in s.pools then [pool.value] else [],
                     phase := CheckRepos(0)))
  {
  }

  lemma CheckRepoOk(s: State, t: TxnId, x: Txn)
    requires TxnOk(s, t, x) && x.phase.CheckRepos? && x.phase.done < |PlansToCheck(x)|
    ensures var repo := PlansToCheck(x)[x.phase.done].repo;
      TxnOk(s, t, x.(problems := x.problems + (if repo in s.repos then [] else [repo]),
                     phase := CheckRepos(x.phase.done + 1)))
  {
  }

  lemma ChecksPassedOk(s: State, t: TxnId, x: Txn)
    requires TxnOk(s, t, x) && x.phase.CheckRepos? && |PlansToCheck(x)| <= x.phase.done && x.problems == []
    ensures TxnOk(s, t, x.(phase := Guard))
  {
  }

  lemma CheckLocal(s: State, t: TxnId)
    requires t in s.txns && TxnOk(s, t, s.txns[t]) && (s.txns[t].phase.CheckPool? || s.txns[t].phase.CheckRepos?)
    ensures Local(s, t, CheckStep(s, t))
  {
    var x := s.txns[t];
    if x.phase.CheckPool? {
      CheckPoolOk(s, t, x);
    } else if x.phase.done < |PlansToCheck(x)| {
      CheckRepoOk(s, t, x);
    } else if x.problems == [] {
      ChecksPassedOk(s, t, x);
    }
  }

  lemma GuardKeeps(d0: Document, s: State, t: TxnId)
    requires Inv(d0, s) && t in s.txns && s.txns[t].phase.Guard?
    ensures Inv(d0, GuardStep(s, t))
  {
    var x := s.txns[t];
    assert TxnOk(s, t, x);
    if Atomic(s.doc, t, x.program).None? {
      if x.program.Update? {
        RollBackKeeps(d0, s, t);
      } else {
        LocalKeeps(d0, s, t, x.(phase := Ending));
      }
    } else if s.lock.None? {
      LockKeeps(d0, s, t);
    }
  }

  lemma LockKeeps(d0: Document, s: State, t: TxnId)
    requires Inv(d0, s) && t in s.txns && s.txns[t].phase.Guard? && s.lock.None?
    requires Atomic(s.doc, t, s.txns[t].program).Some?
    ensures Inv(d0, WriteRow(s, t, Atomic(s.doc, t, s.txns[t].program).value.row))
  {
    var x := s.txns[t];
    assert TxnOk(s, t, x);
    var s' := WriteRow(s, t, Atomic(s.doc, t, x.program).value.row);
    forall u | u in s'.txns ensures TxnOk(s', u, s'.txns[u]) {
      assert TxnOk(s, u, s.txns[u]);
    }
  }

  lemma DeletePlansOk(s: State, t: TxnId, x: Txn)
    requires TxnOk(s, t, x) && x.phase.DeletePlans?
    ensures TxnOk(s, t, x.(plans := Remove(x.plans, See(s.doc.plans, x.plans).Keys), phase := InsertPlan(0)))
  {
    SeeClean(s.doc.plans);
    assert Remove(x.plans, s.doc.plans.Keys) == Pending(PlanRows(t, NewPlans(x.program)[..0]), s.doc.plans.Keys);
  }

  lemma InsertPlanOk(s: State, t: TxnId, x: Txn)
    requires TxnOk(s, t, x) && x.phase.InsertPlan? && x.phase.done < |NewPlans(x.program)|
    ensures var k := x.phase.done;
      TxnOk(s, t, x.(plans := Put(x.plans, RowId(t, k), NewPlans(x.program)[k]), phase := InsertPlan(k + 1)))
  {
    RowsPrefix(t, NewPlans(x.program), x.phase.done);
  }

  lemma PlansInsertedOk(s: State, t: TxnId, x: Txn)
    requires TxnOk(s, t, x) && x.phase.InsertPlan? && |NewPlans(x.program)| <= x.phase.done
    ensures TxnOk(s, t, x.(phase := AfterPlans(x.program)))
  {
    assert NewPlans(x.program)[..x.phase.done] == NewPlans(x.program);
  }

  lemma PlansLocal(s: State, t: TxnId)
    requires t in s.txns && TxnOk(s, t, s.txns[t]) && (s.txns[t].phase.DeletePlans? || s.txns[t].phase.InsertPlan?)
    ensures Local(s, t, ReplacePlansStep(s, t))
  {
    hide ChecksDone, Progress, See;
    var x := s.txns[t];
    assert With(s, t, x) == s;
    if x.phase.DeletePlans? {
      DeletePlansOk(s, t, x);
    } else if x.phase.done >= |NewPlans(x.program)| {
      PlansInsertedOk(s, t, x);
    } else {
      InsertPlanOk(s, t, x);
    }
  }

  lemma DeleteRulesOk(s: State, t: TxnId, x: Txn)
    requires TxnOk(s, t, x) && x.phase.DeleteRules?
    ensures TxnOk(s, t, x.(rules := Remove(x.rules, See(s.doc.rules, x.rules).Keys), phase := InsertRule(0)))
  {
    SeeClean(s.doc.rules);
    assert Remove(x.rules, s.doc.rules.Keys) == Pending(RuleRows(t, NewRules(x.program)[..0]), s.doc.rules.Keys);
  }

  lemma InsertRuleOk(s: State, t: TxnId, x: Txn)
    requires TxnOk(s, t, x) && x.phase.InsertRule? && x.phase.done < |NewRules(x.program)|
    ensures var k := x.phase.done;
      TxnOk(s, t, x.(rules := Put(x.rules, RowId(t, k), NewRules(x.program)[k]), phase := InsertRule(k + 1)))
  {
    RulesPrefix(t, NewRules(x.program), x.phase.done);
  }

  lemma RulesInsertedOk(s: State, t: TxnId, x: Txn)
    requires TxnOk(s, t, x) && x.phase.InsertRule? && |NewRules(x.program)| <= x.phase.done
    ensures TxnOk(s, t, x.(phase := RecordAudit))
  {
    assert NewRules(x.program)[..x.phase.done] == NewRules(x.program);
  }

  lemma RulesLocal(s: State, t: TxnId)
    requires t in s.txns && TxnOk(s, t, s.txns[t]) && (s.txns[t].phase.DeleteRules? || s.txns[t].phase.InsertRule?)
    ensures Local(s, t, ReplaceRulesStep(s, t))
  {
    hide ChecksDone, Progress, See;
    var x := s.txns[t];
    assert With(s, t, x) == s;
    if x.phase.DeleteRules? {
      DeleteRulesOk(s, t, x);
      if RuleRowsFree(s, t) {
        assert ReplaceRulesStep(s, t)
          == With(s, t, x.(rules := Remove(x.rules, See(s.doc.rules, x.rules).Keys), phase := InsertRule(0)));
      }
    } else if x.phase.done >= |NewRules(x.program)| {
      RulesInsertedOk(s, t, x);
    } else {
      InsertRuleOk(s, t, x);
    }
  }

  lemma AuditLocal(s: State, t: TxnId)
    requires t in s.txns && TxnOk(s, t, s.txns[t]) && s.txns[t].phase.RecordAudit?
    ensures Local(s, t, AuditStep(s, t)) && AuditStep(s, t).txns[t].audit == Some(AuditOf(s.doc, s.txns[t].program))
  {
  }

  lemma RunLocal(s: State, t: TxnId, answer: RowOrder)
    requires t in s.txns && TxnOk(s, t, s.txns[t])
    requires !Over(s.txns[t].phase) && !s.txns[t].phase.Guard? && !s.txns[t].phase.Ending?
    ensures Local(s, t, RunStep(s, t, answer))
  {
    match s.txns[t].phase
    case ReadRow | ReadPlans | ReadRules => ReadLocal(s, t, answer);
    case CheckPool | CheckRepos(_) => CheckLocal(s, t);
    case DeletePlans | InsertPlan(_) => PlansLocal(s, t);
    case DeleteRules | InsertRule(_) => RulesLocal(s, t);
    case RecordAudit => AuditLocal(s, t);
  }

  /** What the holder commits is its whole edit, applied to the document its guard matched. */
  lemma HolderCommitsAtomic(s: State, t: TxnId, x: Txn)
    requires TxnOk(s, t, x) && x.row.Some? && x.phase.Ending?
    ensures Atomic(s.doc, t, x.program)
      == Some(Document(x.row.value, See(s.doc.plans, x.plans), See(s.doc.rules, x.rules)))
    ensures x.audit == Some(AuditOf(s.doc, x.program))
  {
    var d, p := s.doc, x.program;
    SeeClean(d.plans);
    SeeClean(d.rules);
    if p.Update? {
      SeeReplaced(d.plans, PlanRows(t, NewPlans(p)));
      SeeReplaced(d.rules, RuleRows(t, NewRules(p)));
    }
  }

  lemma CommitReadOnlyKeeps(d0: Document, s: State, t: TxnId)
    requires Inv(d0, s) && t in s.txns && s.txns[t].phase.Ending? && s.txns[t].row.None?
    ensures Inv(d0, Commit(s, t)) && Commit(s, t).doc == s.doc
  {
    var x := s.txns[t];
    assert TxnOk(s, t, x);
    var s' := Commit(s, t);
    SeeClean(s.doc.plans);
    SeeClean(s.doc.rules);
    assert s'.log == s.log && s'.audits == s.audits;
    forall u | u in s'.txns ensures TxnOk(s', u, s'.txns[u]) {
      assert TxnOk(s, u, s.txns[u]);
    }
  }

  lemma CommitTxnsOk(s: State, t: TxnId)
    requires t in s.txns && s.txns[t].phase.Ending? && s.txns[t].row.Some?
    requires forall u :: u in s.txns ==> TxnOk(s, u, s.txns[u])
    ensures var s' := Commit(s, t); forall u :: u in s'.txns ==> TxnOk(s', u, s'.txns[u])
  {
    assert TxnOk(s, t, s.txns[t]);
    var s' := Commit(s, t);
    forall u | u in s'.txns ensures TxnOk(s', u, s'.txns[u]) {
      assert TxnOk(s, u, s.txns[u]);
    }
  }

  lemma CommitLogged(s: State, t: TxnId)
    requires t in s.txns && s.txns[t].phase.Ending? && Logged(s)
    ensures Logged(Commit(s, t))
  {
  }

  lemma CommitHistory(d0: Document, s: State, t: TxnId)
    requires t in s.txns && TxnOk(s, t, s.txns[t]) && s.txns[t].phase.Ending? && s.txns[t].row.Some?
    requires Replay(d0, s.log) == Some(s.doc) && s.audits == [Created] + Trail(d0, s.log)
    ensures var s' := Commit(s, t);
      && Replay(d0, s'.log) == Some(s'.doc) == Atomic(s.doc, t, s.txns[t].program)
      && s'.audits == [Created] + Trail(d0, s'.log)
  {
    HolderCommitsAtomic(s, t, s.txns[t]);
    var s' := Commit(s, t);
    assert s'.log[..|s'.log| - 1] == s.log;
  }

  lemma CommitWriteKeeps(d0: Document, s: State, t: TxnId)
    requires Inv(d0, s) && t in s.txns && s.txns[t].phase.Ending? && s.txns[t].row.Some?
    ensures Inv(d0, Commit(s, t))
  {
    assert TxnOk(s, t, s.txns[t]);
    CommitHistory(d0, s, t);
    CommittedReferences(s, t, s.txns[t]);
    CommitLogged(s, t);
    CommitTxnsOk(s, t);
  }

  lemma CommittedReferences(s: State, t: TxnId, x: Txn)
    requires TxnOk(s, t, x) && x.row.Some? && References(s.doc, s.pools, s.repos)
    ensures References(Atomic(s.doc, t, x.program).value, s.pools, s.repos)
  {
    assert Checked(s, x);
  }

  lemma RunKeeps(d0: Document, s: State, t: TxnId, answer: RowOrder)
    requires Inv(d0, s) && t in s.txns
    ensures Inv(d0, RunStep(s, t, answer))
  {
    var x := s.txns[t];
    assert TxnOk(s, t, x);
    if x.phase.Guard? {
      GuardKeeps(d0, s, t);
    } else if x.phase.Ending? {
      if x.row.Some? {
        CommitWriteKeeps(d0, s, t);
      } else {
        CommitReadOnlyKeeps(d0, s, t);
      }
    } else if !Over(x.phase) {
      RunLocal(s, t, answer);
      var s' := RunStep(s, t, answer);
      if s' == RollBack(s, t) {
        RollBackKeeps(d0, s, t);
      } else {
        LocalKeeps(d0, s, t, s'.txns[t]);
      }
    }
  }

  lemma StepKeeps(d0: Document, s: State, a: Action)
    requires Inv(d0, s)
    ensures Inv(d0, Step(s, a))
  {
    match a
    case Start(t, p) => StartKeeps(d0, s, t, p);
    case Run(t, answer) => if t in s.txns { RunKeeps(d0, s, t, answer); }
    case Fail(t) => if t in s.txns && !Over(s.txns[t].phase) { RollBackKeeps(d0, s, t); }
    case AddPool(p) =>
      GrowKeeps(d0, s, {p}, {});
      assert Step(s, a) == s.(pools := s.pools + {p}, repos := s.repos + {});
    case AddRepo(r) =>
      GrowKeeps(d0, s, {}, {r});
      assert Step(s, a) == s.(pools := s.pools + {}, repos := s.repos + {r});
  }

  lemma {:induction false} Reachable(s0: State, run: seq<Action>)
    requires Init(s0)
    ensures Inv(s0.doc, Exec(s0, run))
  {
    if run != [] {
      Reachable(s0, run[..|run| - 1]);
      StepKeeps(s0.doc, Exec(s0, run[..|run| - 1]), run[|run| - 1]);
    }
  }
}
