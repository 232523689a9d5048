/** What holds over every run of edits and archives of one test. */
module EditTheorems {
  import opened Wrappers
  import opened Tables
  import opened TestDocuments
  import opened EditProtocol
  import TestStore

  /** The runs below start where creating a test through the service leaves it. */
  lemma CreatedIsInit(c: TestStore.Contents, w: TestStore.World, t: TxnId, id: Id, project: Id, body: TestCreate)
    requires TestStore.Consistent(c, w) && TestStore.Fresh(c, t) && id !in c.tests
    requires TestStore.AfterCreate(c, w, t, id, project, body).0.Ok?
    ensures var c' := TestStore.AfterCreate(c, w, t, id, project, body).1;
      && id in c'.tests && c'.audits == c.audits + [(id, Created)]
      && Init(State(TestStore.DocumentOf(c', id), [Created], w.pools, w.repos, None, map[], []))
  {
    TestStore.CreateIsInitial(c, w, t, id, project, body);
    TestStore.CreateKeeps(c, w, t, id, project, body);
  }

  // ---- One at a time ------------------------------------------------------------------------

  /** The committed document is the logged programs run one at a time, each whole, and the log is every committed write
      exactly once. */
  lemma Serializable(s0: State, run: seq<Action>)
    requires Init(s0)
    ensures var s := Exec(s0, run);
      && Replay(s0.doc, s.log) == Some(s.doc)
      && (forall t, p ::
            Entry(t, p) in s.log <==> t in s.txns && s.txns[t].phase == Committed(true) && s.txns[t].program == p)
      && (forall i, j :: 0 <= i < j < |s.log| ==> s.log[i].txn != s.log[j].txn)
  {
    Reachable(s0, run);
  }

  /** Writes are logged in the order their transactions took the row lock: between its guard and its commit a
      transaction is the only one that has written anything. */
  lemma OneWriter(s0: State, run: seq<Action>, t: TxnId, u: TxnId)
    requires Init(s0)
    requires var s := Exec(s0, run); t in s.txns && u in s.txns && s.txns[t].row.Some? && t != u
    ensures var s := Exec(s0, run);
      s.lock == Some(t) && s.txns[u].row.None? && s.txns[u].plans == Clean() && s.txns[u].rules == Clean()
        && s.txns[u].audit == None
  {
    Reachable(s0, run);
    var s := Exec(s0, run);
    assert TxnOk(s, t, s.txns[t]) && TxnOk(s, u, s.txns[u]);
  }

  lemma {:induction false} ReplayPrefix(d: Document, log: seq<Entry>, i: nat)
    requires Replay(d, log).Some? && i < |log|
    ensures Replay(d, log[..i]).Some?
    ensures Replay(d, log[..i + 1]) == Atomic(Replay(d, log[..i]).value, log[i].txn, log[i].program)
    ensures Replay(d, log[..i + 1]).Some?
  {
    var front := log[..|log| - 1];
    assert log[..i + 1][..i] == log[..i];
    if i == |log| - 1 {
      assert log[..i + 1] == log;
    } else {
      ReplayPrefix(d, front, i);
      assert front[..i] == log[..i] && front[..i + 1] == log[..i + 1];
    }
  }

  /** No edit is lost: each committed edit expected exactly the version its predecessors left, and left the next one. */
  lemma NoLostEdit(s0: State, run: seq<Action>, i: nat)
    requires Init(s0)
    requires var s := Exec(s0, run); i < |s.log| && s.log[i].program.Update?
    ensures var log := Exec(s0, run).log;
      && Replay(s0.doc, log[..i]).Some? && Replay(s0.doc, log[..i + 1]).Some?
      && Replay(s0.doc, log[..i]).value.row.version == log[i].program.body.version
      && Replay(s0.doc, log[..i + 1]).value.row.version == log[i].program.body.version + 1
  {
    Reachable(s0, run);
    ReplayPrefix(s0.doc, Exec(s0, run).log, i);
  }

  function Edits(log: seq<Entry>): nat {
    if log == [] then 0 else Edits(log[..|log| - 1]) + (if log[|log| - 1].program.Update? then 1 else 0)
  }

  lemma {:induction false} VersionCountsEdits(d: Document, log: seq<Entry>)
    requires Replay(d, log).Some?
    ensures Replay(d, log).value.row.version == d.row.version + Edits(log)
  {
    if log != [] {
      VersionCountsEdits(d, log[..|log| - 1]);
    }
  }

  lemma {:induction false} EditsGrow(log: seq<Entry>, i: nat, j: nat)
    requires i < j <= |log|
    ensures Edits(log[..i]) + (if log[i].program.Update? then 1 else 0) <= Edits(log[..j])
  {
    assert log[..j][..j - 1] == log[..j - 1];
    if i < j - 1 {
      EditsGrow(log, i, j - 1);
    }
  }

  /** Of the edits that expected one version, at most one ever commits. */
  lemma OneWinnerPerVersion(s0: State, run: seq<Action>, i: nat, j: nat)
    requires Init(s0)
    requires var log := Exec(s0, run).log; i < j < |log| && log[i].program.Update? && log[j].program.Update?
    ensures var log := Exec(s0, run).log; log[i].program.body.version < log[j].program.body.version
  {
    var log := Exec(s0, run).log;
    NoLostEdit(s0, run, i);
    NoLostEdit(s0, run, j);
    VersionCountsEdits(s0.doc, log[..i]);
    VersionCountsEdits(s0.doc, log[..j]);
    EditsGrow(log, i, j);
  }

  // ---- The audit trail ----------------------------------------------------------------------

  function EditedVersions(audits: seq<Audit>): seq<int> {
    if audits == [] then [] else
    var last := audits[|audits| - 1];
    EditedVersions(audits[..|audits| - 1]) + (if last.Updated? then [last.version] else [])
  }

  function Deletions(audits: seq<Audit>): nat {
    if audits == [] then 0 else Deletions(audits[..|audits| - 1]) + (if audits[|audits| - 1].Deleted? then 1 else 0)
  }

  function Versions(v: int): seq<int>
  {
    if v <= 1 then [] else Versions(v - 1) + [v]
  }

  lemma AuditAppended(audits: seq<Audit>, a: Audit)
    ensures EditedVersions(audits + [a]) == EditedVersions(audits) + (if a.Updated? then [a.version] else [])
    ensures Deletions(audits + [a]) == Deletions(audits) + (if a.Deleted? then 1 else 0)
  {
    assert (audits + [a])[..|audits|] == audits;
  }

  lemma {:induction false} TrailMatches(d: Document, log: seq<Entry>)
    requires Replay(d, log).Some? && d.row.version == 1 && d.row.status == Draft
    ensures var audits := [Created] + Trail(d, log);
      && EditedVersions(audits) == Versions(Replay(d, log).value.row.version)
      && Deletions(audits) == (if Replay(d, log).value.row.status == Archived then 1 else 0)
      && Replay(d, log).value.row.version >= 1
  {
    if log == [] {
      AuditAppended([], Created);
      assert [] + [Created] == [Created];
      assert [Created] + Trail(d, log) == [Created];
    } else {
      var front, last := log[..|log| - 1], log[|log| - 1];
      TrailMatches(d, front);
      var before := Replay(d, front).value;
      assert [Created] + Trail(d, log) == ([Created] + Trail(d, front)) + [AuditOf(before, last.program)];
      AuditAppended([Created] + Trail(d, front), AuditOf(before, last.program));
    }
  }

  lemma {:induction false} VersionsAre(v: int)
    requires v >= 1
    ensures |Versions(v)| == v - 1
    ensures forall k :: 0 <= k < v - 1 ==> Versions(v)[k] == k + 2
  {
    if v > 1 {
      VersionsAre(v - 1);
    }
  }

  /** The update audits are exactly one for each of the versions 2 to the current one, in order, and there is a deletion
      audit, a single one, exactly when the test is archived. */
  lemma AuditTellsHistory(s0: State, run: seq<Action>)
    requires Init(s0)
    ensures var s := Exec(s0, run); var edited := EditedVersions(s.audits);
      && |edited| == s.doc.row.version - 1
      && (forall k :: 0 <= k < |edited| ==> edited[k] == k + 2)
      && Deletions(s.audits) == (if s.doc.row.status == Archived then 1 else 0)
  {
    Reachable(s0, run);
    var s := Exec(s0, run);
    TrailMatches(s0.doc, s.log);
    VersionsAre(s.doc.row.version);
  }

  /** The document refers only to pools and repositories that exist, in every committed state. */
  lemma ReferencesExist(s0: State, run: seq<Action>)
    requires Init(s0)
    ensures var s := Exec(s0, run); References(s.doc, s.pools, s.repos)
  {
    Reachable(s0, run);
  }

  // ---- The end of an edit -------------------------------------------------------------------

  /** At the end of its edit a transaction reads back its whole edit, and committing it makes exactly that public. */
  lemma ReadsBackItsEdit(s0: State, run: seq<Action>, t: TxnId, answer: RowOrder)
    requires Init(s0)
    requires var s := Exec(s0, run); t in s.txns && s.txns[t].phase.Ending? && s.txns[t].row.Some?
    ensures var s := Exec(s0, run); var x := s.txns[t]; var after := Exec(s0, run + [Run(t, answer)]);
      && Atomic(s.doc, t, x.program)
        == Some(Document(x.row.value, See(s.doc.plans, x.plans), See(s.doc.rules, x.rules)))
      && Some(after.doc) == Atomic(s.doc, t, x.program)
      && after.audits == s.audits + [AuditOf(s.doc, x.program)]
  {
    Reachable(s0, run);
    var s := Exec(s0, run);
    assert TxnOk(s, t, s.txns[t]);
    HolderCommitsAtomic(s, t, s.txns[t]);
    assert (run + [Run(t, answer)])[..|run|] == run;
  }

  // ---- Nobody waits for ever ----------------------------------------------------------------

  /** Statements the holder of the row lock still has to run. */
  function Remaining(x: Txn): nat {
    match x.phase
    case DeletePlans => 8 + |NewPlans(x.program)| + |NewRules(x.program)|
    case InsertPlan(k) =>
      6 + |NewRules(x.program)| + if k <= |NewPlans(x.program)| then |NewPlans(x.program)| - k else 0
    case DeleteRules => 5 + |NewRules(x.program)|
    case InsertRule(k) => 3 + if k <= |NewRules(x.program)| then |NewRules(x.program)| - k else 0
    case RecordAudit => 2
    case Ending => 1
    case _ => 0
  }

  lemma HolderStepAdvances(s: State, t: TxnId, answer: RowOrder)
    requires t in s.txns && TxnOk(s, t, s.txns[t]) && s.lock == Some(t) && PlanRowsFree(s, t) && RuleRowsFree(s, t)
    ensures var s' := RunStep(s, t, answer);
      && t in s'.txns && Remaining(s'.txns[t]) < Remaining(s.txns[t])
      && (if Over(s'.txns[t].phase) then s'.lock == None else s'.lock == Some(t))
  {
  }

  lemma OthersHaveWrittenNothing(s: State, t: TxnId)
    requires t in s.txns && s.lock == Some(t) && (forall u :: u in s.txns ==> TxnOk(s, u, s.txns[u]))
    ensures PlanRowsFree(s, t) && RuleRowsFree(s, t)
  {
    forall u | u in s.txns && u != t ensures s.txns[u].plans == Clean() && s.txns[u].rules == Clean() {
      assert TxnOk(s, u, s.txns[u]);
    }
  }

  /** The holder of the row lock never waits: whatever the others are doing, its next statement brings it closer to its
      end, and it gives the lock up exactly when it ends. */
  lemma HolderAdvances(s0: State, run: seq<Action>, t: TxnId, answer: RowOrder)
    requires Init(s0)
    requires Exec(s0, run).lock == Some(t)
    ensures t in Exec(s0, run).txns
    ensures var x := Exec(s0, run).txns[t]; var after := Exec(s0, run + [Run(t, answer)]);
      && t in after.txns && Remaining(after.txns[t]) < Remaining(x)
      && (if Over(after.txns[t].phase) then after.lock == None else after.lock == Some(t))
  {
    Reachable(s0, run);
    var s := Exec(s0, run);
    assert TxnOk(s, t, s.txns[t]);
    OthersHaveWrittenNothing(s, t);
    HolderStepAdvances(s, t, answer);
    assert (run + [Run(t, answer)])[..|run|] == run;
  }
}
