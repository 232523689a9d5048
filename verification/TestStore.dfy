/** Creating, editing and archiving tests in one transaction each, against the tables themselves. */
module TestStore {
  import opened Wrappers
  import opened Orders
  import opened TestDocuments

  /** A plan or rule row with its `performance_test_id`. */
  datatype Owned<T> = Owned(test: Id, spec: T)

  function Of<T>(rows: map<RowId, Owned<T>>, test: Id): map<RowId, T> {
    map r | r in rows && rows[r].test == test :: rows[r].spec
  }

  function Own<T>(test: Id, rows: map<RowId, T>): map<RowId, Owned<T>> {
    map r | r in rows :: Owned(test, rows[r])
  }

  /** DELETE what the test has, INSERT the given rows. */
  function Replaced<T>(rows: map<RowId, Owned<T>>, test: Id, given: map<RowId, T>): map<RowId, Owned<T>> {
    (map r | r in rows && rows[r].test != test :: rows[r]) + Own(test, given)
  }

  predicate Unused<T>(rows: map<RowId, Owned<T>>, t: TxnId) {
    forall r :: r in rows ==> r.txn != t
  }

  lemma ReplacedOf<T>(rows: map<RowId, Owned<T>>, t: TxnId, test: Id, given: map<RowId, T>)
    requires Unused(rows, t) && forall r :: r in given ==> r.txn == t
    ensures Of(Replaced(rows, test, given), test) == given
    ensures forall other :: other != test ==> Of(Replaced(rows, test, given), other) == Of(rows, other)
  {
    forall other | other != test ensures Of(Replaced(rows, test, given), other) == Of(rows, other) {
      assert forall r :: r in Of(Replaced(rows, test, given), other) <==> r in Of(rows, other);
    }
  }

  lemma InsertedOne<T>(rows: map<RowId, Owned<T>>, test: Id, given: map<RowId, T>, r: RowId, spec: T)
    ensures Replaced(rows, test, given[r := spec]) == Replaced(rows, test, given)[r := Owned(test, spec)]
  {
    assert Own(test, given[r := spec]) == Own(test, given)[r := Owned(test, spec)];
  }

  lemma InsertedNone<T>(rows: map<RowId, Owned<T>>, test: Id, given: map<RowId, T>)
    requires given == map[]
    ensures Replaced(rows, test, given) == map r | r in rows && rows[r].test != test :: rows[r]
  {
    assert Own(test, given) == map[];
  }

  function Missing(plans: seq<PlanSpec>, repos: set<Id>): seq<Id> {
    if plans == [] then [] else
    var last := plans[|plans| - 1].repo;
    Missing(plans[..|plans| - 1], repos) + (if last in repos then [] else [last])
  }

  function ProblemsOf(load: Workload, plans: seq<PlanSpec>, pools: set<Id>, repos: set<Id>): Problems {
    Problems(if load.pool in pools then None else Some(load.pool), Missing(plans, repos))
  }

  const NO_PROBLEMS := Problems(None, [])

  /** There is nothing to report exactly when the document built from these would refer only to what exists. */
  lemma {:induction false} NoProblems(row: TestRow, plans: seq<PlanSpec>, pools: set<Id>, repos: set<Id>)
    ensures ProblemsOf(row.configuration, plans, pools, repos) == NO_PROBLEMS
       <==> row.configuration.pool in pools && forall p :: p in plans ==> p.repo in repos
  {
    if plans != [] {
      var front, last := plans[..|plans| - 1], plans[|plans| - 1];
      NoProblems(row, front, pools, repos);
      assert plans == front + [last];
    }
  }

  /** What is reported is every repository asked for that does not exist, as often as it was asked for, and no other. */
  lemma {:induction false} MissingIsComplete(plans: seq<PlanSpec>, repos: set<Id>, id: Id)
    ensures multiset(Missing(plans, repos))[id] == if id in repos then 0 else multiset(Repos(plans))[id]
  {
    if plans != [] {
      MissingIsComplete(plans[..|plans| - 1], repos, id);
    }
  }

  /** All that can be wrong with an edit: what it asks for itself. What it leaves alone is there. */
  function FaultsOf(body: TestUpdate, pools: set<Id>, repos: set<Id>): Problems {
    Problems(if body.configuration.Some? && body.configuration.value.pool !in pools
             then Some(body.configuration.value.pool) else None,
             if body.plans.Some? then Missing(body.plans.value, repos) else [])
  }

  /** Checking the stored workload or plans beside the new ones reports nothing more. */
  lemma OnlyGivenIsAtFault(d: Document, stored: seq<PlanSpec>, body: TestUpdate, pools: set<Id>, repos: set<Id>)
    requires References(d, pools, repos) && IsListing(stored, d.plans)
    ensures ProblemsOf(Or(body.configuration, d.row.configuration), Or(body.plans, stored), pools, repos)
      == FaultsOf(body, pools, repos)
  {
    forall p | p in stored ensures p.repo in repos {
      var i :| 0 <= i < |stored| && stored[i] == p;
    }
    NoProblems(d.row, stored, pools, repos);
  }

  /** The edit refers only to what exists once nothing is at fault. */
  lemma FaultlessEdit(d: Document, t: TxnId, body: TestUpdate, pools: set<Id>, repos: set<Id>)
    requires References(d, pools, repos) && FaultsOf(body, pools, repos) == NO_PROBLEMS
    ensures var edited := Atomic(d, t, Update(body)); edited.Some? ==> References(edited.value, pools, repos)
  {
    if body.plans.Some? {
      NoProblems(d.row, body.plans.value, pools, repos);
    }
  }

  function Repos(plans: seq<PlanSpec>): seq<Id> {
    if plans == [] then [] else Repos(plans[..|plans| - 1]) + [plans[|plans| - 1].repo]
  }

  // ---- The tables as a value, and what each call leaves of them -----------------------------

  datatype Contents = Contents(tests: map<Id, TestRow>, plans: map<RowId, Owned<PlanSpec>>,
                               rules: map<RowId, Owned<RuleSpec>>,
                               audits: seq<(Id, Audit)>)

  /** What other services own and these calls only look up. */
  datatype World = World(pools: set<Id>, repos: set<Id>, projects: set<Id>)

  function DocumentOf(c: Contents, id: Id): Document
    requires id in c.tests
  {
    Document(c.tests[id], Of(c.plans, id), Of(c.rules, id))
  }

  ghost predicate Consistent(c: Contents, w: World) {
    forall id :: id in c.tests ==> References(DocumentOf(c, id), w.pools, w.repos)
  }

  /** Identifiers drawn by transaction `t` are new. */
  predicate Fresh(c: Contents, t: TxnId) {
    Unused(c.plans, t) && Unused(c.rules, t)
  }

  function Written(c: Contents, t: TxnId, id: Id, row: TestRow, plans: Option<seq<PlanSpec>>,
                   rules: Option<seq<RuleSpec>>): Contents {
    Contents(c.tests[id := row],
             if plans.Some? then Replaced(c.plans, id, PlanRows(t, plans.value)) else c.plans,
             if rules.Some? then Replaced(c.rules, id, RuleRows(t, rules.value)) else c.rules,
             c.audits)
  }

  function Audited(c: Contents, id: Id, audit: Audit): Contents {
    c.(audits := c.audits + [(id, audit)])
  }

  function AfterUpdate(c: Contents, w: World, t: TxnId, id: Id, body: TestUpdate)
    : (Result<Document, Failure>, Contents) {
    var faults := FaultsOf(body, w.pools, w.repos);
    if id !in c.tests then (Err(NotFound), c)
    else if faults != NO_PROBLEMS then (Err(ValidationFailed(faults)), c)
    else if c.tests[id].version != body.version then (Err(Conflict(body.version)), c)
    else
      var row := Patched(c.tests[id], body);
      var c' := Audited(Written(c, t, id, row, body.plans, body.rules), id, Updated(Fields(body), row.version));
      (Ok(DocumentOf(c', id)), c')
  }

  /** The tables with a new test, and its audit row. */
  function WithTest(c: Contents, t: TxnId, id: Id, body: TestCreate): (c': Contents)
    ensures id in c'.tests
  {
    var row := TestRow(body.name, body.description, body.configuration, body.tags, Draft, 1);
    Audited(Written(c, t, id, row, Some(body.plans), Some(body.rules)), id, Created)
  }

  function AfterCreate(c: Contents, w: World, t: TxnId, id: Id, project: Id, body: TestCreate)
    : (Result<Document, Failure>, Contents) {
    var problems := ProblemsOf(body.configuration, body.plans, w.pools, w.repos);
    if project !in w.projects then (Err(NotFound), c)
    else if problems != NO_PROBLEMS then (Err(ValidationFailed(problems)), c)
    else (Ok(DocumentOf(WithTest(c, t, id, body), id)), WithTest(c, t, id, body))
  }

  function AfterArchive(c: Contents, id: Id): (Result<(), Failure>, Contents) {
    if id !in c.tests then (Err(NotFound), c)
    else if c.tests[id].status == Archived then (Ok(()), c)
    else (Ok(()), Audited(c.(tests := c.tests[id := c.tests[id].(status := Archived)]), id, Deleted))
  }

  // ---- What those mean for a document -------------------------------------------------------

  lemma WrittenDocument(c: Contents, t: TxnId, id: Id, row: TestRow, plans: Option<seq<PlanSpec>>,
                        rules: Option<seq<RuleSpec>>)
    requires Fresh(c, t)
    ensures var c' := Written(c, t, id, row, plans, rules);
      && DocumentOf(c', id).row == row
      && DocumentOf(c', id).plans == (if plans.Some? then PlanRows(t, plans.value) else Of(c.plans, id))
      && DocumentOf(c', id).rules == (if rules.Some? then RuleRows(t, rules.value) else Of(c.rules, id))
      && (forall other :: other in c.tests && other != id ==> DocumentOf(c', other) == DocumentOf(c, other))
  {
    if plans.Some? {
      ReplacedOf(c.plans, t, id, PlanRows(t, plans.value));
    }
    if rules.Some? {
      ReplacedOf(c.rules, t, id, RuleRows(t, rules.value));
    }
  }

  lemma AuditedDocument(c: Contents, id: Id, audit: Audit)
    ensures forall other :: other in c.tests ==> DocumentOf(Audited(c, id, audit), other) == DocumentOf(c, other)
  {
  }

  /** An edit that goes through is the whole edit at once on its own document, and nothing on any other; one that does
      not changes nothing. */
  lemma UpdateIsAtomic(c: Contents, w: World, t: TxnId, id: Id, body: TestUpdate)
    requires Fresh(c, t) && id in c.tests
    ensures var (answer, c') := AfterUpdate(c, w, t, id, body);
      var edited := Atomic(DocumentOf(c, id), t, Update(body));
      && (answer.Ok? <==> FaultsOf(body, w.pools, w.repos) == NO_PROBLEMS && edited.Some?)
      && (answer.Ok? ==> id in c'.tests && answer.value == DocumentOf(c', id) && Some(answer.value) == edited
                         && c'.audits == c.audits + [(id, AuditOf(DocumentOf(c, id), Update(body)))])
      && (answer.Err? ==> c' == c)
      && c'.tests.Keys == c.tests.Keys
      && (forall other :: other in c.tests && other != id ==> DocumentOf(c', other) == DocumentOf(c, other))
  {
    hide Of, Replaced, PlanRows, RuleRows, FaultsOf, Fields;
    if id in c.tests && c.tests[id].version == body.version {
      var row := Patched(c.tests[id], body);
      WrittenDocument(c, t, id, row, body.plans, body.rules);
      AuditedDocument(Written(c, t, id, row, body.plans, body.rules), id, Updated(Fields(body), row.version));
    }
  }

  /** A created test is its document at version 1, beside all the others. */
  lemma CreateIsInitial(c: Contents, w: World, t: TxnId, id: Id, project: Id, body: TestCreate)
    requires Fresh(c, t) && id !in c.tests
    ensures var (answer, c') := AfterCreate(c, w, t, id, project, body);
      && (answer.Ok? ==> c'.tests.Keys == c.tests.Keys + {id} && answer.value == DocumentOf(c', id) == Initial(t, body)
                         && c'.audits == c.audits + [(id, Created)])
      && (answer.Err? ==> c' == c)
      && (forall other :: other in c.tests ==> other in c'.tests && DocumentOf(c', other) == DocumentOf(c, other))
  {
    hide Of, Replaced, PlanRows, RuleRows;
    var row := TestRow(body.name, body.description, body.configuration, body.tags, Draft, 1);
    WrittenDocument(c, t, id, row, Some(body.plans), Some(body.rules));
    AuditedDocument(Written(c, t, id, row, Some(body.plans), Some(body.rules)), id, Created);
  }

  /** Archiving is whole too, and archiving again is nothing. */
  lemma ArchiveIsAtomic(c: Contents, t: TxnId, id: Id)
    requires id in c.tests
    ensures var (answer, c') := AfterArchive(c, id);
      var archived := Atomic(DocumentOf(c, id), t, Archive);
      && c'.tests.Keys == c.tests.Keys
      && DocumentOf(c', id) == (if archived.Some? then archived.value else DocumentOf(c, id))
      && c'.audits == c.audits + (if archived.Some? then [(id, Deleted)] else [])
      && (forall other :: other in c.tests && other != id ==> DocumentOf(c', other) == DocumentOf(c, other))
      && AfterArchive(c', id) == (Ok(()), c')
  {
  }

  /** No call leaves a document that refers to something that does not exist. */
  lemma ConsistencyKept(c: Contents, w: World, t: TxnId, id: Id, project: Id, edit: TestUpdate, create: TestCreate)
    requires Consistent(c, w) && Fresh(c, t)
    ensures Consistent(AfterUpdate(c, w, t, id, edit).1, w)
    ensures id !in c.tests ==> Consistent(AfterCreate(c, w, t, id, project, create).1, w)
    ensures Consistent(AfterArchive(c, id).1, w)
  {
    UpdateKeeps(c, w, t, id, edit);
    if id !in c.tests {
      CreateKeeps(c, w, t, id, project, create);
    } else {
      ArchiveIsAtomic(c, t, id);
    }
  }

  lemma UpdateKeeps(c: Contents, w: World, t: TxnId, id: Id, body: TestUpdate)
    requires Consistent(c, w) && Fresh(c, t)
    ensures Consistent(AfterUpdate(c, w, t, id, body).1, w)
  {
    if id in c.tests {
      UpdateIsAtomic(c, w, t, id, body);
      if FaultsOf(body, w.pools, w.repos) == NO_PROBLEMS {
        FaultlessEdit(DocumentOf(c, id), t, body, w.pools, w.repos);
      }
      hide AfterUpdate, DocumentOf, References, Atomic, FaultsOf;
    }
  }

  lemma CreateKeeps(c: Contents, w: World, t: TxnId, id: Id, project: Id, body: TestCreate)
    requires Consistent(c, w) && Fresh(c, t) && id !in c.tests
    ensures Consistent(AfterCreate(c, w, t, id, project, body).1, w)
  {
    CreateIsInitial(c, w, t, id, project, body);
    NoProblems(Initial(t, body).row, body.plans, w.pools, w.repos);
    if AfterCreate(c, w, t, id, project, body).0.Ok? {
      assert References(Initial(t, body), w.pools, w.repos);
    }
  }

  // ---- What a caller is told, and what it finds afterwards ----------------------------------

  /** The repositories of these plans that do not exist, in the order of the plans, each as often as it is named. */
  ghost predicate ListsMissing(listed: seq<Id>, plans: seq<PlanSpec>, repos: set<Id>) {
    Picks(plans, (p: PlanSpec) => p.repo !in repos, (p: PlanSpec) => p.repo, listed)
  }

  lemma {:induction false} MissingInOrder(plans: seq<PlanSpec>, repos: set<Id>)
    ensures ListsMissing(Missing(plans, repos), plans, repos)
  {
    var keep, out := (p: PlanSpec) => p.repo !in repos, (p: PlanSpec) => p.repo;
    hide Picks;
    if plans == [] {
      PicksNone(keep, out);
    } else {
      var front, last := plans[..|plans| - 1], plans[|plans| - 1];
      MissingInOrder(front, repos);
      PicksOne(front, last, keep, out, Missing(front, repos));
      assert plans == front + [last];
      assert Missing(plans, repos) == if keep(last) then Missing(front, repos) + [out(last)] else Missing(front, repos);
    }
  }

  /** The pool and the repositories asked for exist. */
  ghost predicate AllExist(load: Option<Workload>, plans: Option<seq<PlanSpec>>, w: World) {
    && (load.Some? ==> load.value.pool in w.pools)
    && (plans.Some? ==> forall p :: p in plans.value ==> p.repo in w.repos)
  }

  /** The report names the pool asked for if it does not exist, and the repositories asked for that do not. */
  ghost predicate Reports(problems: Problems, load: Option<Workload>, plans: Option<seq<PlanSpec>>, w: World) {
    && problems.pool == (if load.Some? && load.value.pool !in w.pools then Some(load.value.pool) else None)
    && ListsMissing(problems.repos, if plans.Some? then plans.value else [], w.repos)
  }

  /** The row is written over: what the body gives is new, the rest stays, the version is the next. */
  ghost predicate RowEdited(row: TestRow, row': TestRow, body: TestUpdate) {
    && row'.name == (if body.name.Some? then body.name.value else row.name)
    && row'.description == (if body.description.Some? then body.description.value else row.description)
    && row'.configuration == (if body.configuration.Some? then body.configuration.value else row.configuration)
    && row'.tags == (if body.tags.Some? then body.tags.value else row.tags)
    && row'.status == row.status && row'.version == row.version + 1
  }

  /** The test has the given rows, under new ids, and no other; rows of other tests are as they were. */
  ghost predicate Given<T(!new)>(rows: map<RowId, Owned<T>>, rows': map<RowId, Owned<T>>, t: TxnId, id: Id,
                                 given: seq<T>) {
    && (forall k: nat :: k < |given| ==> RowId(t, k) in rows' && rows'[RowId(t, k)] == Owned(id, given[k]))
    && (forall r :: r in rows' && rows'[r].test == id ==> r.txn == t && r.index < |given|)
    && (forall r :: r in rows && rows[r].test != id ==> r in rows' && rows'[r] == rows[r])
    && (forall r :: r in rows' && rows'[r].test != id ==> r in rows)
  }

  /** An absent list leaves the rows alone. */
  ghost predicate ListWritten<T(!new)>(rows: map<RowId, Owned<T>>, rows': map<RowId, Owned<T>>, t: TxnId, id: Id,
                                       given: Option<seq<T>>) {
    if given.Some? then Given(rows, rows', t, id, given.value) else rows' == rows
  }

  ghost predicate Changes(fields: set<Column>, body: TestUpdate) {
    forall c :: c in fields <==>
      || (c == Name && body.name.Some?) || (c == Description && body.description.Some?)
      || (c == Configuration && body.configuration.Some?) || (c == Tags && body.tags.Some?)
  }

  /** The document of a test is its row with its own plans and rules. */
  ghost predicate IsDocument(d: Document, c: Contents, id: Id) {
    && id in c.tests && d.row == c.tests[id]
    && (forall r :: r in d.plans <==> r in c.plans && c.plans[r].test == id)
    && (forall r :: r in d.plans ==> c.plans[r].spec == d.plans[r])
    && (forall r :: r in d.rules <==> r in c.rules && c.rules[r].test == id)
    && (forall r :: r in d.rules ==> c.rules[r].spec == d.rules[r])
  }

  lemma ReplacedIsGiven<T(!new)>(rows: map<RowId, Owned<T>>, t: TxnId, id: Id, given: seq<T>,
                                 drawn: map<RowId, T>)
    requires Unused(rows, t)
    requires forall r :: r in drawn <==> r.txn == t && r.index < |given|
    requires forall k: nat :: k < |given| ==> drawn[RowId(t, k)] == given[k]
    ensures Given(rows, Replaced(rows, id, drawn), t, id, given)
  {
  }

  lemma EditWritten(c: Contents, t: TxnId, id: Id, body: TestUpdate)
    requires Fresh(c, t) && id in c.tests
    ensures var row := Patched(c.tests[id], body); var c' := Written(c, t, id, row, body.plans, body.rules);
      && RowEdited(c.tests[id], row, body)
      && ListWritten(c.plans, c'.plans, t, id, body.plans) && ListWritten(c.rules, c'.rules, t, id, body.rules)
  {
    if body.plans.Some? {
      ReplacedIsGiven(c.plans, t, id, body.plans.value, PlanRows(t, body.plans.value));
    }
    if body.rules.Some? {
      ReplacedIsGiven(c.rules, t, id, body.rules.value, RuleRows(t, body.rules.value));
    }
    hide Given, Replaced;
  }

  /** What an edit that goes through leaves. */
  ghost predicate Edits(c: Contents, c': Contents, t: TxnId, id: Id, body: TestUpdate) {
    && id in c.tests && id in c'.tests && c'.tests == c.tests[id := c'.tests[id]]
    && RowEdited(c.tests[id], c'.tests[id], body)
    && ListWritten(c.plans, c'.plans, t, id, body.plans) && ListWritten(c.rules, c'.rules, t, id, body.rules)
    && exists fields :: Changes(fields, body) && c'.audits == c.audits + [(id, Updated(fields, c'.tests[id].version))]
  }

  lemma DocumentIs(c: Contents, id: Id)
    requires id in c.tests
    ensures IsDocument(DocumentOf(c, id), c, id)
  {
  }

  lemma FaultsExactly(body: TestUpdate, w: World)
    ensures FaultsOf(body, w.pools, w.repos) == NO_PROBLEMS <==> AllExist(body.configuration, body.plans, w)
    ensures Reports(FaultsOf(body, w.pools, w.repos), body.configuration, body.plans, w)
  {
    var plans := if body.plans.Some? then body.plans.value else [];
    MissingInOrder(plans, w.repos);
    NothingMissing(plans, w.repos);
    assert Missing([], w.repos) == [];
    hide ListsMissing, Missing;
  }

  lemma {:induction false} NothingMissing(plans: seq<PlanSpec>, repos: set<Id>)
    ensures Missing(plans, repos) == [] <==> forall p :: p in plans ==> p.repo in repos
  {
    if plans != [] {
      NothingMissing(plans[..|plans| - 1], repos);
      assert plans == plans[..|plans| - 1] + [plans[|plans| - 1]];
    }
  }

  /** Every answer to an edit, with its reason, and what the edit leaves. */
  lemma UpdateExactly(c: Contents, w: World, t: TxnId, id: Id, body: TestUpdate)
    requires Fresh(c, t)
    ensures var (answer, c') := AfterUpdate(c, w, t, id, body);
      && (answer == Err(NotFound) <==> id !in c.tests)
      && (answer.Err? && answer.error.ValidationFailed? <==>
            id in c.tests && !AllExist(body.configuration, body.plans, w))
      && (answer.Err? && answer.error.ValidationFailed? ==>
            Reports(answer.error.problems, body.configuration, body.plans, w))
      && (answer == Err(Conflict(body.version)) <==>
            id in c.tests && AllExist(body.configuration, body.plans, w) && c.tests[id].version != body.version)
      && (answer.Err? && answer.error.Conflict? ==> answer.error.expected == body.version)
      && (answer.Err? ==> c' == c)
      && (answer.Ok? ==> Edits(c, c', t, id, body) && IsDocument(answer.value, c', id))
  {
    FaultsExactly(body, w);
    hide FaultsOf, AllExist, Reports;
    if id in c.tests && c.tests[id].version == body.version {
      EditWritten(c, t, id, body);
      var row := Patched(c.tests[id], body);
      var c' := Audited(Written(c, t, id, row, body.plans, body.rules), id, Updated(Fields(body), row.version));
      assert Changes(Fields(body), body);
      hide RowEdited, ListWritten, Changes, Fields, Patched;
      assert Edits(c, c', t, id, body);
      DocumentIs(c', id);
    }
  }

  /** What a creation leaves: one row more, as the body has it, a draft at version 1. */
  ghost predicate Creates(c: Contents, c': Contents, t: TxnId, id: Id, body: TestCreate) {
    && id in c'.tests && c'.tests == c.tests[id := c'.tests[id]]
    && var row := c'.tests[id];
       && row.name == body.name && row.description == body.description && row.configuration == body.configuration
       && row.tags == body.tags && row.status == Draft && row.version == 1
       && Given(c.plans, c'.plans, t, id, body.plans) && Given(c.rules, c'.rules, t, id, body.rules)
       && c'.audits == c.audits + [(id, Created)]
  }

  /** Every answer to a creation, with its reason, and what it leaves. */
  lemma CreateExactly(c: Contents, w: World, t: TxnId, id: Id, project: Id, body: TestCreate)
    requires Fresh(c, t) && id !in c.tests
    ensures var (answer, c') := AfterCreate(c, w, t, id, project, body);
      var (load, plans) := (Some(body.configuration), Some(body.plans));
      && (answer == Err(NotFound) <==> project !in w.projects)
      && (answer.Err? && answer.error.ValidationFailed? <==> project in w.projects && !AllExist(load, plans, w))
      && (answer.Err? && answer.error.ValidationFailed? ==> Reports(answer.error.problems, load, plans, w))
      && (answer.Err? ==> !answer.error.Conflict? && c' == c)
      && (answer.Ok? ==> Creates(c, c', t, id, body) && IsDocument(answer.value, c', id))
  {
    ProblemsExactly(body.configuration, body.plans, w);
    CreationWritten(c, t, id, body);
    DocumentIs(WithTest(c, t, id, body), id);
    hide IsDocument, DocumentOf, Creates, Reports, AllExist, ProblemsOf, WithTest;
  }

  lemma CreationWritten(c: Contents, t: TxnId, id: Id, body: TestCreate)
    requires Fresh(c, t)
    ensures Creates(c, WithTest(c, t, id, body), t, id, body)
  {
    ReplacedIsGiven(c.plans, t, id, body.plans, PlanRows(t, body.plans));
    ReplacedIsGiven(c.rules, t, id, body.rules, RuleRows(t, body.rules));
    hide Given, Replaced, PlanRows, RuleRows;
  }

  lemma ProblemsExactly(load: Workload, plans: seq<PlanSpec>, w: World)
    ensures ProblemsOf(load, plans, w.pools, w.repos) == NO_PROBLEMS <==> AllExist(Some(load), Some(plans), w)
    ensures Reports(ProblemsOf(load, plans, w.pools, w.repos), Some(load), Some(plans), w)
  {
    hide Missing;
    MissingInOrder(plans, w.repos);
    var problems := ProblemsOf(load, plans, w.pools, w.repos);
    assert ListsMissing(problems.repos, plans, w.repos);
    hide ListsMissing;
    assert Reports(problems, Some(load), Some(plans), w);
    NothingMissing(plans, w.repos);
    hide Reports;
  }

  /** Archiving is refused only for a test that does not exist, and otherwise leaves an archived test; the audit row is
      for the call that archived it. */
  lemma ArchiveExactly(c: Contents, id: Id)
    ensures var (answer, c') := AfterArchive(c, id);
      && (answer == Err(NotFound) <==> id !in c.tests) && (answer == Ok(()) <==> id in c.tests)
      && c'.plans == c.plans && c'.rules == c.rules
      && (id !in c.tests ==> c' == c)
      && (id in c.tests ==>
            && c'.tests.Keys == c.tests.Keys && c'.tests[id] == c.tests[id].(status := Archived)
            && (forall other :: other in c.tests && other != id ==> c'.tests[other] == c.tests[other])
            && c'.audits == c.audits + (if c.tests[id].status == Archived then [] else [(id, Deleted)]))
  {
  }

  // ---- The service --------------------------------------------------------------------------

  class TestTables {
    var tests: map<Id, TestRow>
    var plans: map<RowId, Owned<PlanSpec>>
    var rules: map<RowId, Owned<RuleSpec>>
    var audits: seq<(Id, Audit)>
    const world: World

    constructor (world: World)
      ensures Now() == Contents(map[], map[], map[], []) && this.world == world
    {
      this.world := world;
      tests, plans, rules, audits := map[], map[], map[], [];
    }

    function Now(): Contents
      reads this
    {
      Contents(tests, plans, rules, audits)
    }

    /** `ORDER BY execution_order`. */
    method PlansFor(id: Id) returns (answer: seq<PlanSpec>)
      ensures IsListing(answer, Of(plans, id))
      ensures forall i, j :: 0 <= i < j < |answer| ==> answer[i].executionOrder <= answer[j].executionOrder
    {
      var table := Of(plans, id);
      var before := (a: RowId, b: RowId) =>
        a in table && b in table && table[a].executionOrder < table[b].executionOrder;
      var ids := Arrange(before, table.Keys);
      answer := [];
      for i := 0 to |ids|
        invariant |answer| == i
        invariant forall k :: 0 <= k < i ==> ids[k] in table && answer[k] == table[ids[k]]
      {
        assert ids[i] in table.Keys;
        answer := answer + [table[ids[i]]];
      }
      ArrangedIsListing(table, ids, answer);
    }

    method CheckReferences(load: Workload, specs: seq<PlanSpec>) returns (problems: Problems)
      ensures problems == ProblemsOf(load, specs, world.pools, world.repos)
    {
      var pool: Option<Id> := None;
      if load.pool !in world.pools {
        pool := Some(load.pool);
      }
      var missing := [];
      for i := 0 to |specs|
        invariant missing == Missing(specs[..i], world.repos)
      {
        assert specs[..i + 1][..i] == specs[..i];
        if specs[i].repo !in world.repos {
          missing := missing + [specs[i].repo];
        }
      }
      assert specs[..|specs|] == specs;
      problems := Problems(pool, missing);
    }

    /** No row back means no row has that id and that version. */
    method UpdateDocument(id: Id, expected: int, changes: map<Column, Value>) returns (row: Option<TestRow>)
      requires Typed(changes)
      modifies this`tests
      ensures row.Some? <==> id in old(tests) && old(tests)[id].version == expected
      ensures row.Some? ==> row.value == Assigned(old(tests)[id], changes) && tests == old(tests)[id := row.value]
      ensures row.None? ==> tests == old(tests)
    {
      if id in tests && tests[id].version == expected {
        tests := tests[id := Assigned(tests[id], changes)];
        return Some(tests[id]);
      }
      return None;
    }

    method ReplacePlans(t: TxnId, id: Id, specs: seq<PlanSpec>)
      requires Unused(plans, t)
      modifies this`plans
      ensures plans == Replaced(old(plans), id, PlanRows(t, specs))
    {
      plans := map r | r in plans && plans[r].test != id :: plans[r];
      InsertedNone(old(plans), id, PlanRows(t, specs[..0]));
      for i := 0 to |specs|
        invariant plans == Replaced(old(plans), id, PlanRows(t, specs[..i]))
      {
        RowsPrefix(t, specs, i);
        InsertedOne(old(plans), id, PlanRows(t, specs[..i]), RowId(t, i), specs[i]);
        plans := plans[RowId(t, i) := Owned(id, specs[i])];
      }
      assert specs[..|specs|] == specs;
    }

    method ReplaceSlaRules(t: TxnId, id: Id, specs: seq<RuleSpec>)
      requires Unused(rules, t)
      modifies this`rules
      ensures rules == Replaced(old(rules), id, RuleRows(t, specs))
    {
      rules := map r | r in rules && rules[r].test != id :: rules[r];
      InsertedNone(old(rules), id, RuleRows(t, specs[..0]));
      for i := 0 to |specs|
        invariant rules == Replaced(old(rules), id, RuleRows(t, specs[..i]))
      {
        RulesPrefix(t, specs, i);
        InsertedOne(old(rules), id, RuleRows(t, specs[..i]), RowId(t, i), specs[i]);
        rules := rules[RowId(t, i) := Owned(id, specs[i])];
      }
      assert specs[..|specs|] == specs;
    }

    method CheckBody(id: Id, body: TestUpdate) returns (problems: Problems)
      requires Consistent(Now(), world) && id in tests
      ensures problems == FaultsOf(body, world.pools, world.repos)
    {
      var stored := PlansFor(id);
      OnlyGivenIsAtFault(DocumentOf(Now(), id), stored, body, world.pools, world.repos);
      problems := NO_PROBLEMS;
      if body.configuration.Some? || body.plans.Some? {
        problems := CheckReferences(Or(body.configuration, tests[id].configuration), Or(body.plans, stored));
      }
    }

    /** The guarded UPDATE and, only if it matched, the lists the body gives; an absent list is left alone. */
    method WriteDocument(t: TxnId, id: Id, body: TestUpdate) returns (row: Option<TestRow>, fields: set<Column>)
      requires id in tests && Fresh(Now(), t)
      modifies this`tests, this`plans, this`rules
      ensures fields == Fields(body)
      ensures row == if old(tests)[id].version == body.version then Some(Patched(old(tests)[id], body)) else None
      ensures Now() == if row.Some? then Written(old(Now()), t, id, row.value, body.plans, body.rules) else old(Now())
    {
      var changes := CollectChanges(Dump(body));
      ChangesArePatch(body, tests[id]);
      fields := changes.Keys;
      row := UpdateDocument(id, body.version, changes);
      if row.Some? {
        if body.plans.Some? {
          ReplacePlans(t, id, body.plans.value);
        }
        if body.rules.Some? {
          ReplaceSlaRules(t, id, body.rules.value);
        }
      }
    }

    method Update(t: TxnId, id: Id, body: TestUpdate) returns (answer: Result<Document, Failure>)
      requires Consistent(Now(), world) && Fresh(Now(), t)
      modifies this
      ensures (answer, Now()) == AfterUpdate(old(Now()), world, t, id, body)
      ensures Consistent(Now(), world)
      ensures answer == Err(NotFound) <==> id !in old(tests)
      ensures (answer.Err? && answer.error.ValidationFailed?) <==>
        id in old(tests) && !AllExist(body.configuration, body.plans, world)
      ensures answer.Err? && answer.error.ValidationFailed? ==>
        Reports(answer.error.problems, body.configuration, body.plans, world)
      ensures answer == Err(Conflict(body.version)) <==>
        && id in old(tests) && AllExist(body.configuration, body.plans, world)
        && old(tests)[id].version != body.version
      ensures answer.Err? && answer.error.Conflict? ==> answer.error.expected == body.version
      ensures answer.Err? ==> Now() == old(Now())
      ensures answer.Ok? ==> Edits(old(Now()), Now(), t, id, body) && IsDocument(answer.value, Now(), id)
    {
      UpdateKeeps(Now(), world, t, id, body);
      UpdateExactly(Now(), world, t, id, body);
      hide Edits, AllExist, Reports, IsDocument;
      hide Of, Written, Consistent, Patched, Fields, FaultsOf;
      if id !in tests {
        return Err(NotFound);
      }
      var problems := CheckBody(id, body);
      if problems != NO_PROBLEMS {
        return Err(ValidationFailed(problems));
      }
      var row, fields := WriteDocument(t, id, body);
      if row.None? {
        return Err(Conflict(body.version));
      }
      audits := audits + [(id, Updated(fields, row.value.version))];
      return Ok(DocumentOf(Now(), id));
    }

    /** The INSERT of the row, the two lists, and the audit row. */
    method InsertDocument(t: TxnId, id: Id, body: TestCreate)
      requires Fresh(Now(), t)
      modifies this
      ensures Now() == WithTest(old(Now()), t, id, body)
    {
      hide Replaced, PlanRows, RuleRows;
      tests := tests[id := TestRow(body.name, body.description, body.configuration, body.tags, Draft, 1)];
      ReplacePlans(t, id, body.plans);
      ReplaceSlaRules(t, id, body.rules);
      audits := audits + [(id, Created)];
    }

    method Create(t: TxnId, id: Id, project: Id, body: TestCreate) returns (answer: Result<Document, Failure>)
      requires Consistent(Now(), world) && Fresh(Now(), t) && id !in tests
      modifies this
      ensures (answer, Now()) == AfterCreate(old(Now()), world, t, id, project, body)
      ensures Consistent(Now(), world)
      ensures answer == Err(NotFound) <==> project !in world.projects
      ensures (answer.Err? && answer.error.ValidationFailed?) <==>
        project in world.projects && !AllExist(Some(body.configuration), Some(body.plans), world)
      ensures answer.Err? && answer.error.ValidationFailed? ==>
        Reports(answer.error.problems, Some(body.configuration), Some(body.plans), world)
      ensures answer.Err? ==> !answer.error.Conflict? && Now() == old(Now())
      ensures answer.Ok? ==> Creates(old(Now()), Now(), t, id, body) && IsDocument(answer.value, Now(), id)
    {
      CreateExactly(Now(), world, t, id, project, body);
      hide Creates, AllExist, Reports, IsDocument;
      CreateKeeps(Now(), world, t, id, project, body);
      hide DocumentOf, Consistent, ProblemsOf, WithTest, Fresh;
      if project !in world.projects {
        return Err(NotFound);
      }
      var problems := CheckReferences(body.configuration, body.plans);
      if problems != NO_PROBLEMS {
        return Err(ValidationFailed(problems));
      }
      InsertDocument(t, id, body);
      return Ok(DocumentOf(Now(), id));
    }

    method ArchiveRow(id: Id) returns (matched: bool)
      modifies this`tests
      ensures matched <==> id in old(tests) && old(tests)[id].status != Archived
      ensures tests == if matched then old(tests)[id := old(tests)[id].(status := Archived)] else old(tests)
    {
      matched := id in tests && tests[id].status != Archived;
      if matched {
        tests := tests[id := tests[id].(status := Archived)];
      }
    }

    method Archive(id: Id) returns (answer: Result<(), Failure>)
      modifies this
      ensures (answer, Now()) == AfterArchive(old(Now()), id)
      ensures answer == Err(NotFound) <==> id !in old(tests)
      ensures answer == Ok(()) <==> id in old(tests)
      ensures plans == old(plans) && rules == old(rules) && (answer.Err? ==> Now() == old(Now()))
      ensures answer.Ok? ==>
        && tests == old(tests)[id := old(tests)[id].(status := Archived)]
        && audits == old(audits) + (if old(tests)[id].status == Archived then [] else [(id, Deleted)])
    {
      ArchiveExactly(Now(), id);
      if id !in tests {
        return Err(NotFound);
      }
      var matched := ArchiveRow(id);
      if matched {
        audits := audits + [(id, Deleted)];
      }
      return Ok(());
    }
  }
}
