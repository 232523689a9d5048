/** What the three SELECTs of a reader give it, when edits commit between them. */
module EditReaders {
  import opened Wrappers
  import opened Tables
  import opened TestDocuments
  import opened EditProtocol
  import opened EditTheorems

  // ---- Which moment each SELECT shows -------------------------------------------------------

  /** Action `p` is the transaction's SELECT of this phase, and it was answered. */
  ghost predicate ReadAt(s0: State, run: seq<Action>, t: TxnId, p: nat, phase: Phase) {
    && p < |run| && run[p].Run? && run[p].t == t
    && t in Exec(s0, run[..p]).txns && Exec(s0, run[..p]).txns[t].phase == phase
    && t in Exec(s0, run[..p + 1]).txns && Exec(s0, run[..p + 1]).txns[t].phase != phase
  }

  ghost predicate SawRow(s0: State, run: seq<Action>, t: TxnId, x: Txn, p: nat) {
    ReadAt(s0, run, t, p, ReadRow) && x.seenRow == Some(Exec(s0, run[..p]).doc.row)
  }

  ghost predicate SawPlans(s0: State, run: seq<Action>, t: TxnId, x: Txn, p: nat, q: nat) {
    && SawRow(s0, run, t, x, p) && p < q && ReadAt(s0, run, t, q, ReadPlans)
    && x.seenPlans.Some? && IsListing(x.seenPlans.value, Exec(s0, run[..q]).doc.plans)
  }

  /** The row as it was committed at the first SELECT, all the plans as at the second, all the rules as at the third. */
  ghost predicate SawAll(s0: State, run: seq<Action>, t: TxnId, x: Txn, p: nat, q: nat, r: nat) {
    && SawPlans(s0, run, t, x, p, q) && q < r && ReadAt(s0, run, t, r, ReadRules)
    && x.seenRules.Some? && IsRuleListing(x.seenRules.value, Exec(s0, run[..r]).doc.rules)
  }

  /** How much of its reading a transaction has done. */
  ghost predicate Reading(x: Txn) {
    && (x.seenRules.Some? ==> x.seenPlans.Some?) && (x.seenPlans.Some? ==> x.seenRow.Some?)
    && (x.phase.ReadRow? ==> x.seenRow.None?)
    && (x.phase.ReadPlans? ==> x.seenRow.Some? && x.seenPlans.None?)
    && (x.phase.ReadRules? ==> x.seenPlans.Some? && x.seenRules.None?)
  }

  ghost predicate Anchored(s0: State, run: seq<Action>, t: TxnId, x: Txn) {
    && Reading(x)
    && (x.seenRow.Some? ==> exists p: nat :: SawRow(s0, run, t, x, p))
    && (x.seenPlans.Some? ==> exists p: nat, q: nat :: SawPlans(s0, run, t, x, p, q))
    && (x.seenRules.Some? ==> exists p: nat, q: nat, r: nat :: SawAll(s0, run, t, x, p, q, r))
  }

  lemma ReadAtStays(s0: State, front: seq<Action>, a: Action, t: TxnId, p: nat, phase: Phase)
    requires ReadAt(s0, front, t, p, phase)
    ensures ReadAt(s0, front + [a], t, p, phase)
    ensures Exec(s0, (front + [a])[..p]) == Exec(s0, front[..p])
  {
    hide Exec;
    assert (front + [a])[..p] == front[..p] && (front + [a])[..p + 1] == front[..p + 1];
  }

  lemma SawRowStays(s0: State, front: seq<Action>, a: Action, t: TxnId, x: Txn, y: Txn, p: nat)
    requires SawRow(s0, front, t, x, p) && y.seenRow == x.seenRow
    ensures SawRow(s0, front + [a], t, y, p)
  {
    hide Exec, ReadAt;
    ReadAtStays(s0, front, a, t, p, ReadRow);
  }

  lemma SawPlansStays(s0: State, front: seq<Action>, a: Action, t: TxnId, x: Txn, y: Txn, p: nat, q: nat)
    requires SawPlans(s0, front, t, x, p, q) && y.seenRow == x.seenRow && y.seenPlans == x.seenPlans
    ensures SawPlans(s0, front + [a], t, y, p, q)
  {
    hide Exec, ReadAt, SawRow, IsListing;
    SawRowStays(s0, front, a, t, x, y, p);
    ReadAtStays(s0, front, a, t, q, ReadPlans);
  }

  lemma SawAllStays(s0: State, front: seq<Action>, a: Action, t: TxnId, x: Txn, y: Txn, p: nat, q: nat, r: nat)
    requires SawAll(s0, front, t, x, p, q, r)
    requires y.seenRow == x.seenRow && y.seenPlans == x.seenPlans && y.seenRules == x.seenRules
    ensures SawAll(s0, front + [a], t, y, p, q, r)
  {
    hide Exec, ReadAt, SawPlans, IsRuleListing;
    SawPlansStays(s0, front, a, t, x, y, p, q);
    ReadAtStays(s0, front, a, t, r, ReadRules);
  }

  /** A step that reads nothing for the transaction. */
  lemma AnchoredStays(s0: State, front: seq<Action>, a: Action, t: TxnId, x: Txn, y: Txn)
    requires Anchored(s0, front, t, x) && Reading(y)
    requires y.seenRow == x.seenRow && y.seenPlans == x.seenPlans && y.seenRules == x.seenRules
    ensures Anchored(s0, front + [a], t, y)
  {
    hide Exec, SawRow, SawPlans, SawAll;
    if x.seenRow.Some? {
      var p: nat :| SawRow(s0, front, t, x, p);
      SawRowStays(s0, front, a, t, x, y, p);
    }
    if x.seenPlans.Some? {
      var p: nat, q: nat :| SawPlans(s0, front, t, x, p, q);
      SawPlansStays(s0, front, a, t, x, y, p, q);
    }
    if x.seenRules.Some? {
      var p: nat, q: nat, r: nat :| SawAll(s0, front, t, x, p, q, r);
      SawAllStays(s0, front, a, t, x, y, p, q, r);
    }
  }

  /** What a step does to the reading of a transaction: nothing, or one SELECT. */
  ghost predicate Reads(s: State, x: Txn, y: Txn) {
    || (y.seenRow == x.seenRow && y.seenPlans == x.seenPlans && y.seenRules == x.seenRules && Reading(y))
    || (x.phase.ReadRow? && y == x.(seenRow := Some(s.doc.row), phase := ReadPlans))
    || (x.phase.ReadPlans? && y.seenPlans.Some? && IsListing(y.seenPlans.value, s.doc.plans)
        && y == x.(seenPlans := y.seenPlans, phase := ReadRules))
    || (x.phase.ReadRules? && y.seenRules.Some? && IsRuleListing(y.seenRules.value, s.doc.rules)
        && y == x.(seenRules := y.seenRules, phase := y.phase) && (y.phase.CheckPool? || y.phase.Guard?))
  }

  lemma SelectReads(s: State, t: TxnId, answer: RowOrder)
    requires t in s.txns && s.txns[t].row == None && s.txns[t].plans == Clean() && s.txns[t].rules == Clean()
    requires Reading(s.txns[t])
    requires s.txns[t].phase.ReadRow? || s.txns[t].phase.ReadPlans? || s.txns[t].phase.ReadRules?
    ensures t in ReadStep(s, t, answer).txns && Reads(s, s.txns[t], ReadStep(s, t, answer).txns[t])
  {
    hide IsListing, IsRuleListing;
    SeeClean(s.doc.plans);
    SeeClean(s.doc.rules);
    hide See;
  }

  lemma OthersReadNothing(s: State, t: TxnId, answer: RowOrder)
    requires t in s.txns && Reading(s.txns[t])
    requires !s.txns[t].phase.ReadRow? && !s.txns[t].phase.ReadPlans? && !s.txns[t].phase.ReadRules?
    ensures t in RunStep(s, t, answer).txns
    ensures var x, y := s.txns[t], RunStep(s, t, answer).txns[t];
      y.seenRow == x.seenRow && y.seenPlans == x.seenPlans && y.seenRules == x.seenRules && Reading(y)
  {
    hide PlanRowsFree, RuleRowsFree, See, ReadStep;
  }

  lemma RunReads(s: State, t: TxnId, answer: RowOrder)
    requires t in s.txns && TxnOk(s, t, s.txns[t]) && Reading(s.txns[t])
    ensures t in RunStep(s, t, answer).txns && Reads(s, s.txns[t], RunStep(s, t, answer).txns[t])
  {
    var x := s.txns[t];
    if x.phase.ReadRow? || x.phase.ReadPlans? || x.phase.ReadRules? {
      SelectReads(s, t, answer);
      hide ReadStep, TxnOk, Reads;
      assert RunStep(s, t, answer) == ReadStep(s, t, answer);
    } else {
      hide RunStep, TxnOk;
      OthersReadNothing(s, t, answer);
    }
  }

  lemma RunChangesOwn(s: State, t: TxnId, answer: RowOrder, u: TxnId)
    requires t in s.txns && u in s.txns && u != t
    ensures u in RunStep(s, t, answer).txns && RunStep(s, t, answer).txns[u] == s.txns[u]
  {
    hide PlanRowsFree, RuleRowsFree, See, IsListing, IsRuleListing;
  }

  lemma AnchoredRead(s0: State, front: seq<Action>, a: Action, t: TxnId, x: Txn, y: Txn)
    requires t in Exec(s0, front).txns && x == Exec(s0, front).txns[t] && Anchored(s0, front, t, x)
    requires t in Exec(s0, front + [a]).txns && y == Exec(s0, front + [a]).txns[t]
    requires a.Run? && a.t == t && Reads(Exec(s0, front), x, y)
    ensures Anchored(s0, front + [a], t, y)
  {
    hide Exec, IsListing, IsRuleListing;
    var run := front + [a];
    assert run[..|front|] == front && run[..|front| + 1] == run;
    if y.seenRow == x.seenRow && y.seenPlans == x.seenPlans && y.seenRules == x.seenRules && Reading(y) {
      AnchoredStays(s0, front, a, t, x, y);
    } else if x.phase.ReadRow? {
      assert SawRow(s0, run, t, y, |front|);
    } else if x.phase.ReadPlans? {
      var p: nat :| SawRow(s0, front, t, x, p);
      SawRowStays(s0, front, a, t, x, y, p);
      assert SawPlans(s0, run, t, y, p, |front|);
    } else {
      var p: nat, q: nat :| SawPlans(s0, front, t, x, p, q);
      SawPlansStays(s0, front, a, t, x, y, p, q);
      assert SawAll(s0, run, t, y, p, q, |front|);
      hide SawPlans, SawAll;
      SawRowOf(s0, run, t, y, p, q);
    }
  }

  lemma SawRowOf(s0: State, run: seq<Action>, t: TxnId, x: Txn, p: nat, q: nat)
    requires SawPlans(s0, run, t, x, p, q)
    ensures SawRow(s0, run, t, x, p)
  {
  }

  /** Whatever a transaction has read it read at the moments of its own SELECTs. */
  lemma {:induction false} EveryReader(s0: State, run: seq<Action>, t: TxnId)
    requires Init(s0) && t in Exec(s0, run).txns
    ensures Anchored(s0, run, t, Exec(s0, run).txns[t])
  {
    var front, a := run[..|run| - 1], run[|run| - 1];
    assert run == front + [a];
    Then(s0, front, a);
    Reachable(s0, front);
    var s := Exec(s0, front);
    var y := Exec(s0, run).txns[t];
    hide Exec, Anchored;
    if t !in s.txns {
      NewReader(s0, run, t, s, a);
    } else {
      EveryReader(s0, front, t);
      assert TxnOk(s, t, s.txns[t]);
      ReadingOf(s0, front, t, s.txns[t]);
      if a.Run? && a.t == t {
        RunReads(s, t, a.answer);
        AnchoredRead(s0, front, a, t, s.txns[t], y);
      } else {
        OtherStepReads(s, a, t);
        AnchoredStays(s0, front, a, t, s.txns[t], y);
      }
    }
  }

  lemma NewReader(s0: State, run: seq<Action>, t: TxnId, s: State, a: Action)
    requires t !in s.txns && t in Step(s, a).txns
    ensures Anchored(s0, run, t, Step(s, a).txns[t])
  {
    if a.Run? && a.t in s.txns {
      RunAddsNobody(s, a.t, a.answer);
    }
    hide RunStep;
  }

  lemma RunAddsNobody(s: State, t: TxnId, answer: RowOrder)
    requires t in s.txns
    ensures RunStep(s, t, answer).txns.Keys == s.txns.Keys
  {
    hide PlanRowsFree, RuleRowsFree, See, IsListing, IsRuleListing;
  }

  lemma ReadingOf(s0: State, run: seq<Action>, t: TxnId, x: Txn)
    requires Anchored(s0, run, t, x)
    ensures Reading(x)
  {
  }

  lemma OtherStepReads(s: State, a: Action, t: TxnId)
    requires t in s.txns && Reading(s.txns[t]) && !(a.Run? && a.t == t)
    ensures t in Step(s, a).txns
    ensures var x, y := s.txns[t], Step(s, a).txns[t];
      y.seenRow == x.seenRow && y.seenPlans == x.seenPlans && y.seenRules == x.seenRules && Reading(y)
  {
    if a.Run? && a.t in s.txns {
      RunChangesOwn(s, a.t, a.answer, t);
    }
    hide RunStep;
  }

  // ---- When that is one version -------------------------------------------------------------

  lemma {:induction false} LogGrows(s0: State, run: seq<Action>, p: nat)
    requires p <= |run|
    ensures |Exec(s0, run[..p]).log| <= |Exec(s0, run).log|
    ensures Exec(s0, run[..p]).log == Exec(s0, run).log[..|Exec(s0, run[..p]).log|]
    decreases |run|
  {
    if p == |run| {
      assert run[..p] == run;
    } else {
      var front := run[..|run| - 1];
      assert front[..p] == run[..p];
      LogGrows(s0, front, p);
      StepLogs(Exec(s0, front), run[|run| - 1]);
    }
  }

  lemma StepLogs(s: State, a: Action)
    ensures s.log <= Step(s, a).log
  {
    hide PlanRowsFree, RuleRowsFree, See, IsListing, IsRuleListing;
  }

  /** How far a row has come: every committed program takes it one further. */
  function Rank(row: TestRow): int {
    row.version + if row.status == Archived then 1 else 0
  }

  lemma {:induction false} RankCounts(d: Document, log: seq<Entry>)
    requires Replay(d, log).Some?
    ensures Rank(Replay(d, log).value.row) == Rank(d.row) + |log|
  {
    if log != [] {
      RankCounts(d, log[..|log| - 1]);
    }
  }

  /** Row, plans and rules as they were after the first `n` committed programs. */
  ghost predicate OneVersion(d: Document, log: seq<Entry>, x: Txn, n: nat) {
    && n <= |log| && Replay(d, log[..n]).Some?
    && var version := Replay(d, log[..n]).value;
       && x.seenRow == Some(version.row)
       && x.seenPlans.Some? && IsListing(x.seenPlans.value, version.plans)
       && x.seenRules.Some? && IsRuleListing(x.seenRules.value, version.rules)
  }

  /** The committed document when action `p` is taken. */
  ghost function DocAt(s0: State, run: seq<Action>, p: nat): Document
    requires p <= |run|
  {
    Exec(s0, run[..p]).doc
  }

  lemma DocIsReplay(s0: State, run: seq<Action>, p: nat)
    requires Init(s0) && p <= |run|
    ensures var n, log := |Exec(s0, run[..p]).log|, Exec(s0, run).log;
      n <= |log| && Replay(s0.doc, log[..n]) == Some(DocAt(s0, run, p))
  {
    Reachable(s0, run[..p]);
    LogGrows(s0, run, p);
  }

  lemma SameListing(seen: seq<PlanSpec>, a: map<RowId, PlanSpec>, b: map<RowId, PlanSpec>)
    requires IsListing(seen, b)
    ensures IsListing(seen, a) <==> Specs(a) == Specs(b)
  {
    EnumeratesExactly(seen, a);
    EnumeratesExactly(seen, b);
    hide Enumerates, Specs;
  }

  lemma SameRuleListing(seen: seq<RuleSpec>, a: map<RowId, RuleSpec>, b: map<RowId, RuleSpec>)
    requires IsRuleListing(seen, b)
    ensures IsRuleListing(seen, a) <==> Specs(a) == Specs(b)
  {
    EnumeratesExactly(seen, a);
    EnumeratesExactly(seen, b);
    hide Enumerates, Specs;
  }

  /** A reader gets one version of the document if and only if the plans said at its second SELECT, and the rules at its
      third, what they said at its first. */
  lemma OneVersionExactly(s0: State, run: seq<Action>, t: TxnId, p: nat, q: nat, r: nat)
    requires Init(s0) && t in Exec(s0, run).txns && SawAll(s0, run, t, Exec(s0, run).txns[t], p, q, r)
    ensures (exists n: nat :: OneVersion(s0.doc, Exec(s0, run).log, Exec(s0, run).txns[t], n))
       <==> Specs(DocAt(s0, run, p).plans) == Specs(DocAt(s0, run, q).plans)
              && Specs(DocAt(s0, run, p).rules) == Specs(DocAt(s0, run, r).rules)
  {
    var x, log, first := Exec(s0, run).txns[t], Exec(s0, run).log, |Exec(s0, run[..p]).log|;
    var at := DocAt(s0, run, p);
    DocIsReplay(s0, run, p);
    SameListing(x.seenPlans.value, at.plans, DocAt(s0, run, q).plans);
    SameRuleListing(x.seenRules.value, at.rules, DocAt(s0, run, r).rules);
    assert x.seenRow == Some(at.row);
    hide Exec, SawAll, IsListing, IsRuleListing, Specs, DocAt;
    if n: nat :| OneVersion(s0.doc, log, x, n) {
      RankCounts(s0.doc, log[..n]);
      RankCounts(s0.doc, log[..first]);
      assert n == first;
    }
    if IsListing(x.seenPlans.value, at.plans) && IsRuleListing(x.seenRules.value, at.rules) {
      assert OneVersion(s0.doc, log, x, first);
    }
  }

  // ---- What a caller can go by --------------------------------------------------------------

  ghost predicate ReplacesPlans(e: Entry) {
    e.program.Update? && e.program.body.plans.Some?
  }

  ghost predicate ReplacesRules(e: Entry) {
    e.program.Update? && e.program.body.rules.Some?
  }

  lemma {:induction false} ListsUntouched(d: Document, log: seq<Entry>, i: nat, j: nat)
    requires i <= j <= |log| && Replay(d, log[..j]).Some?
    ensures Replay(d, log[..i]).Some?
    ensures (forall k :: i <= k < j ==> !ReplacesPlans(log[k])) ==>
      Replay(d, log[..i]).value.plans == Replay(d, log[..j]).value.plans
    ensures (forall k :: i <= k < j ==> !ReplacesRules(log[k])) ==>
      Replay(d, log[..i]).value.rules == Replay(d, log[..j]).value.rules
    decreases j
  {
    if i < j {
      assert log[..j][..j - 1] == log[..j - 1];
      ListsUntouched(d, log, i, j - 1);
    }
  }

  /** If no edit that replaces plans commits between the first SELECT and the second, and none that replaces rules
      between the first and the third, the reader gets one version. */
  lemma UndisturbedReaderSeesOneVersion(s0: State, run: seq<Action>, t: TxnId, p: nat, q: nat, r: nat)
    requires Init(s0) && t in Exec(s0, run).txns && SawAll(s0, run, t, Exec(s0, run).txns[t], p, q, r)
    requires var log := Exec(s0, run).log;
      && (forall k :: |Exec(s0, run[..p]).log| <= k < |Exec(s0, run[..q]).log| && k < |log| ==> !ReplacesPlans(log[k]))
      && (forall k :: |Exec(s0, run[..p]).log| <= k < |Exec(s0, run[..r]).log| && k < |log| ==> !ReplacesRules(log[k]))
    ensures exists n: nat :: OneVersion(s0.doc, Exec(s0, run).log, Exec(s0, run).txns[t], n)
  {
    var log := Exec(s0, run).log;
    var i, j, k := |Exec(s0, run[..p]).log|, |Exec(s0, run[..q]).log|, |Exec(s0, run[..r]).log|;
    DocIsReplay(s0, run, p);
    DocIsReplay(s0, run, q);
    DocIsReplay(s0, run, r);
    LogsInOrder(s0, run, p, q);
    LogsInOrder(s0, run, p, r);
    ListsUntouched(s0.doc, log, i, j);
    ListsUntouched(s0.doc, log, i, k);
    OneVersionExactly(s0, run, t, p, q, r);
  }

  lemma LogsInOrder(s0: State, run: seq<Action>, p: nat, q: nat)
    requires p <= q <= |run|
    ensures |Exec(s0, run[..p]).log| <= |Exec(s0, run[..q]).log|
  {
    LogGrows(s0, run[..q], p);
    assert run[..q][..p] == run[..p];
  }

  // ---- For one ------------------------------------------------------------------------------

  lemma Then(s0: State, run: seq<Action>, a: Action)
    ensures Exec(s0, run + [a]) == Step(Exec(s0, run), a)
  {
    assert (run + [a])[..|run|] == run;
  }

  function Runs(t: TxnId, n: nat): seq<Action> {
    if n == 0 then [] else Runs(t, n - 1) + [Run(t, NO_ROWS)]
  }

  const CLEAR := Update(TestUpdate(1, None, None, None, Some([]), None, None))

  const NO_ROWS := RowOrder([], [])

  const PLAN := PlanSpec(7, None, 1, 0)

  const BEFORE :=
    State(Document(TestRow("a", None, Workload(1, 1, 0, 5), [], Draft, 1), map[RowId(0, 0) := PLAN], map[]),
          [Created], {5}, {7}, None, map[], [])

  /** Up to the guard: the reader has read the row, the writer has read the document and found nothing wrong with it. */
  const INTERLEAVED: seq<Action> :=
    [Start(1, Archive), Run(1, NO_ROWS), Start(2, CLEAR), Run(2, NO_ROWS), Run(2, RowOrder([PLAN], []))]

  lemma OneRow(r: RowId, plan: PlanSpec)
    ensures IsListing([plan], map[r := plan]) && IsListing([], map[]) && IsRuleListing([], map[])
  {
    var ids := [r];
    assert |ids| == |[plan]| == |map[r := plan]| && ids[0] in map[r := plan];
    var none: seq<RowId> := [];
    assert |none| == 0;
  }

  lemma ReachesChecks()
    ensures var s := Exec(BEFORE, INTERLEAVED);
      && s == BEFORE.(txns := map[1 := Fresh(Archive).(seenRow := Some(BEFORE.doc.row), phase := ReadPlans),
                                  2 := Fresh(CLEAR).(seenRow := Some(BEFORE.doc.row), seenPlans := Some([PLAN]),
                                                     phase := ReadRules)])
  {
    var a, r := INTERLEAVED, BEFORE.doc.row;
    var s1 := BEFORE.(txns := map[1 := Fresh(Archive)]);
    var s2 := BEFORE.(txns := map[1 := Fresh(Archive).(seenRow := Some(r), phase := ReadPlans)]);
    var s3 := With(s2, 2, Fresh(CLEAR));
    var s4 := With(s2, 2, Fresh(CLEAR).(seenRow := Some(r), phase := ReadPlans));
    OneRow(RowId(0, 0), PLAN);
    SeeClean(BEFORE.doc.plans);
    assert a[..0] == [] && a[..1] == a[..0] + [a[0]] && a[..2] == a[..1] + [a[1]] && a[..3] == a[..2] + [a[2]];
    assert a[..4] == a[..3] + [a[3]] && a == a[..4] + [a[4]];
    Then(BEFORE, a[..0], a[0]);
    assert Exec(BEFORE, a[..1]) == s1;
    Then(BEFORE, a[..1], a[1]);
    assert Exec(BEFORE, a[..2]) == s2;
    Then(BEFORE, a[..2], a[2]);
    assert Exec(BEFORE, a[..3]) == s3;
    Then(BEFORE, a[..3], a[3]);
    assert Exec(BEFORE, a[..4]) == s4;
    Then(BEFORE, a[..4], a[4]);
  }

  lemma RulesRead(s0: State, n: nat, s: State, x: Txn)
    requires Exec(s0, Runs(2, n)) == s && 2 in s.txns && s.txns[2] == x && x.program == CLEAR
    requires x.phase == ReadRules && s.doc.rules == map[] && x.rules == Clean()
    ensures Exec(s0, Runs(2, n + 1)) == With(s, 2, x.(seenRules := Some([]), phase := CheckPool))
  {
    hide Exec, IsRuleListing;
    OneRow(RowId(0, 0), PLAN);
    SeeClean(s.doc.rules);
    Then(s0, Runs(2, n), Run(2, NO_ROWS));
  }

  lemma PoolFound(s0: State, n: nat, s: State, x: Txn)
    requires Exec(s0, Runs(2, n)) == s && 2 in s.txns && s.txns[2] == x && x.program == CLEAR
    requires x.phase == CheckPool && x.seenRow.Some? && x.seenRow.value.configuration.pool in s.pools
    ensures Exec(s0, Runs(2, n + 1)) == With(s, 2, x.(problems := [], phase := CheckRepos(0)))
  {
    hide Exec;
    Then(s0, Runs(2, n), Run(2, NO_ROWS));
  }

  lemma NoReposToFind(s0: State, n: nat, s: State, x: Txn)
    requires Exec(s0, Runs(2, n)) == s && 2 in s.txns && s.txns[2] == x && x.program == CLEAR
    requires x.phase == CheckRepos(0) && x.problems == []
    ensures Exec(s0, Runs(2, n + 1)) == With(s, 2, x.(phase := Guard))
  {
    hide Exec;
    Then(s0, Runs(2, n), Run(2, NO_ROWS));
  }

  lemma RowLocked(s0: State, n: nat, s: State, x: Txn)
    requires Exec(s0, Runs(2, n)) == s && 2 in s.txns && s.txns[2] == x && x.program == CLEAR
    requires x.phase == Guard && s.lock == None && s.doc.row.version == 1
    ensures Exec(s0, Runs(2, n + 1))
      == With(s.(lock := Some(2)), 2, x.(row := Some(Patched(s.doc.row, CLEAR.body)), phase := DeletePlans))
  {
    hide Exec;
    Then(s0, Runs(2, n), Run(2, NO_ROWS));
  }

  lemma PlansDeleted(s0: State, n: nat, s: State, x: Txn)
    requires Exec(s0, Runs(2, n)) == s && 2 in s.txns && s.txns[2] == x && x.program == CLEAR
    requires x.phase == DeletePlans && (forall u :: u in s.txns ==> s.txns[u].plans == Clean())
    ensures Exec(s0, Runs(2, n + 1))
      == With(s, 2, x.(plans := Pending(map[], s.doc.plans.Keys), phase := InsertPlan(0)))
  {
    hide Exec;
    SeeClean(s.doc.plans);
    assert PlanRowsFree(s, 2);
    assert Remove(x.plans, s.doc.plans.Keys) == Pending(map[], s.doc.plans.Keys);
    Then(s0, Runs(2, n), Run(2, NO_ROWS));
  }

  lemma NoPlansToInsert(s0: State, n: nat, s: State, x: Txn)
    requires Exec(s0, Runs(2, n)) == s && 2 in s.txns && s.txns[2] == x && x.program == CLEAR
    requires x.phase == InsertPlan(0)
    ensures Exec(s0, Runs(2, n + 1)) == With(s, 2, x.(phase := RecordAudit))
  {
    hide Exec;
    Then(s0, Runs(2, n), Run(2, NO_ROWS));
  }

  lemma AuditWritten(s0: State, n: nat, s: State, x: Txn)
    requires Exec(s0, Runs(2, n)) == s && 2 in s.txns && s.txns[2] == x && x.program == CLEAR
    requires x.phase == RecordAudit && x.row.Some?
    ensures Exec(s0, Runs(2, n + 1)) == With(s, 2, x.(audit := Some(Updated({}, x.row.value.version)), phase := Ending))
  {
    hide Exec;
    Then(s0, Runs(2, n), Run(2, NO_ROWS));
  }

  lemma EditCommitted(s0: State, n: nat, s: State, x: Txn)
    requires Exec(s0, Runs(2, n)) == s && 2 in s.txns && s.txns[2] == x && x.program == CLEAR
    requires x.phase == Ending
    ensures Exec(s0, Runs(2, n + 1)) == Commit(s, 2)
  {
    hide Exec;
    Then(s0, Runs(2, n), Run(2, NO_ROWS));
  }

  lemma WriterChecks(s0: State, n: nat, s: State, x: Txn)
    requires Exec(s0, Runs(2, n)) == s && 2 in s.txns && s.txns[2] == x && x.program == CLEAR && x.phase == ReadRules
    requires x.seenRow.Some? && x.seenRow.value.configuration.pool in s.pools && s.doc.rules == map[]
    requires x.rules == Clean()
    ensures Exec(s0, Runs(2, n + 3)) == With(s, 2, x.(seenRules := Some([]), problems := [], phase := Guard))
  {
    hide Exec;
    RulesRead(s0, n, s, x);
    var x1 := x.(seenRules := Some([]), phase := CheckPool);
    PoolFound(s0, n + 1, With(s, 2, x1), x1);
    var x2 := x1.(problems := [], phase := CheckRepos(0));
    NoReposToFind(s0, n + 2, With(With(s, 2, x1), 2, x2), x2);
  }

  lemma WriterLocks(s0: State, n: nat, s: State, x: Txn, cleared: Pending<RowId, PlanSpec>)
    requires Exec(s0, Runs(2, n)) == s && 2 in s.txns && s.txns[2] == x && x.program == CLEAR && x.phase == Guard
    requires s.lock == None && s.doc.row.version == 1 && (forall u :: u in s.txns ==> s.txns[u].plans == Clean())
    requires cleared == Pending(map[], s.doc.plans.Keys)
    ensures Exec(s0, Runs(2, n + 2))
      == With(s.(lock := Some(2)), 2,
              x.(row := Some(Patched(s.doc.row, CLEAR.body)), plans := cleared, phase := InsertPlan(0)))
  {
    hide Exec, PlanRowsFree;
    RowLocked(s0, n, s, x);
    var x1 := x.(row := Some(Patched(s.doc.row, CLEAR.body)), phase := DeletePlans);
    PlansDeleted(s0, n + 1, With(s.(lock := Some(2)), 2, x1), x1);
  }

  lemma WriterCommits(s0: State, n: nat, s: State, x: Txn)
    requires Exec(s0, Runs(2, n)) == s && 2 in s.txns && s.txns[2] == x && x.program == CLEAR
    requires x.phase == InsertPlan(0)
    requires x.row.Some? && x.plans == Pending(map[], s.doc.plans.Keys) && x.rules == Clean()
    ensures var s' := Exec(s0, Runs(2, n + 3));
      && s'.doc.row == x.row.value && s'.doc.plans == map[] && s'.doc.rules == s.doc.rules
      && (forall u :: u in s.txns && u != 2 ==> u in s'.txns && s'.txns[u] == s.txns[u])
  {
    hide Exec;
    NoPlansToInsert(s0, n, s, x);
    var x1 := x.(phase := RecordAudit);
    AuditWritten(s0, n + 1, With(s, 2, x1), x1);
    var x2 := x1.(audit := Some(Updated({}, x.row.value.version)), phase := Ending);
    EditCommitted(s0, n + 2, With(With(s, 2, x1), 2, x2), x2);
    SeeReplaced(s.doc.plans, map[]);
    SeeClean(s.doc.rules);
  }

  /** An edit that clears the plans, run from its last read to its commit beside a reader. */
  lemma WriterRuns(s: State, n: nat, x: Txn, y: Txn)
    requires Exec(s, Runs(2, n)) == s && s.txns == map[1 := y, 2 := x] && s.lock == None && s.doc.row.version == 1
    requires y.plans == Clean()
    requires x == Fresh(CLEAR).(seenRow := x.seenRow, seenPlans := x.seenPlans, phase := ReadRules)
    requires x.seenRow.Some? && x.seenRow.value.configuration.pool in s.pools && s.doc.rules == map[]
    ensures var s' := Exec(s, Runs(2, n + 8));
      1 in s'.txns && s'.txns[1] == y && s'.doc.row.version == 2 && s'.doc.plans == map[] && s'.doc.rules == map[]
  {
    hide Exec;
    WriterChecks(s, n, s, x);
    var x1 := x.(seenRules := Some([]), problems := [], phase := Guard);
    var cleared := Pending(map[], s.doc.plans.Keys);
    WriterLocks(s, n + 3, With(s, 2, x1), x1, cleared);
    var x2 := x1.(row := Some(Patched(s.doc.row, CLEAR.body)), plans := cleared, phase := InsertPlan(0));
    WriterCommits(s, n + 5, With(With(s, 2, x1).(lock := Some(2)), 2, x2), x2);
  }

  lemma {:induction false} ExecSplit(s: State, first: seq<Action>, second: seq<Action>)
    ensures Exec(s, first + second) == Exec(Exec(s, first), second)
  {
    if second == [] {
      assert first + second == first;
    } else {
      var front := second[..|second| - 1];
      ExecSplit(s, first, front);
      assert (first + second)[..|first + second| - 1] == first + front;
    }
  }

  lemma ReadsNoPlans(s: State, x: Txn)
    requires 1 in s.txns && s.txns[1] == x && x.phase == ReadPlans && x.plans == Clean() && s.doc.plans == map[]
    ensures Step(s, Run(1, NO_ROWS)) == With(s, 1, x.(seenPlans := Some([]), phase := ReadRules))
  {
    hide IsListing;
    OneRow(RowId(0, 0), PLAN);
    SeeClean(s.doc.plans);
  }

  lemma ReadsNoRules(s: State, x: Txn)
    requires 1 in s.txns && s.txns[1] == x && x.phase == ReadRules && x.rules == Clean() && s.doc.rules == map[]
    requires x.program == Archive
    ensures Step(s, Run(1, NO_ROWS)) == With(s, 1, x.(seenRules := Some([]), phase := Guard))
  {
    hide IsRuleListing;
    OneRow(RowId(0, 0), PLAN);
    SeeClean(s.doc.rules);
  }

  lemma NoRuns(s: State)
    ensures Exec(s, Runs(2, 0)) == s
  {
  }

  lemma MixedRun(s0: State, before: seq<Action>, s: State, y: Txn, s1: State)
    requires s == Exec(s0, before) && s1 == Exec(s, Runs(2, 8))
    requires 1 in s1.txns && s1.txns[1] == y && y.phase == ReadPlans && y.plans == Clean() && s1.doc.plans == map[]
    requires y.rules == Clean() && s1.doc.rules == map[] && y.program == Archive
    ensures var s' := Exec(s0, before + Runs(2, 8) + [Run(1, NO_ROWS)] + [Run(1, NO_ROWS)]);
      && 1 in s'.txns && s'.txns[1] == y.(seenPlans := Some([]), seenRules := Some([]), phase := Guard)
  {
    hide Exec, Step;
    ExecSplit(s0, before, Runs(2, 8));
    Then(s0, before + Runs(2, 8), Run(1, NO_ROWS));
    ReadsNoPlans(s1, y);
    var s2 := With(s1, 1, y.(seenPlans := Some([]), phase := ReadRules));
    Then(s0, before + Runs(2, 8) + [Run(1, NO_ROWS)], Run(1, NO_ROWS));
    ReadsNoRules(s2, s2.txns[1]);
  }

  /** A run in which a reader gets the row of version 1 with the plans of version 2, a document that no version of the
      test ever was. */
  lemma ReaderCanMix() returns (s0: State, run: seq<Action>)
    ensures Init(s0)
    ensures var s := Exec(s0, run);
      && 1 in s.txns && s.txns[1].seenRow.Some? && s.txns[1].seenPlans.Some? && s.txns[1].seenRules.Some?
      && forall n: nat :: !OneVersion(s0.doc, s.log, s.txns[1], n)
  {
    hide Exec;
    s0, run := BEFORE, INTERLEAVED + Runs(2, 8) + [Run(1, NO_ROWS)] + [Run(1, NO_ROWS)];
    var s := Exec(BEFORE, INTERLEAVED);
    ReachesChecks();
    NoRuns(s);
    WriterRuns(s, 0, s.txns[2], s.txns[1]);
    MixedRun(BEFORE, INTERLEAVED, s, s.txns[1], Exec(s, Runs(2, 8)));
    var x, log := Exec(BEFORE, run).txns[1], Exec(BEFORE, run).log;
    assert |BEFORE.doc.plans| == 1;
    assert log[..0] == [];
    forall n: nat ensures !OneVersion(BEFORE.doc, log, x, n) {
      if OneVersion(BEFORE.doc, log, x, n) {
        RankCounts(BEFORE.doc, log[..n]);
      }
    }
  }
}
