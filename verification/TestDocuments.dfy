/** A performance test is one document over three tables: its row, its plans and its SLA rules. */
module TestDocuments {
  import opened Wrappers
  import opened Orders
  import opened StringOrder

  type Id = nat

  type TxnId = nat

  datatype Status = Draft | Archived

  datatype Workload = Workload(virtualUsers: nat, durationSeconds: nat, rampUpSeconds: nat, pool: Id)

  datatype PlanSpec = PlanSpec(repo: Id, pinnedRef: Option<string>, virtualUsers: nat, executionOrder: nat)

  datatype RuleSpec = RuleSpec(name: string, metric: string, entity: Option<string>, operator: string,
                               threshold: real, unit: Option<string>, severity: string, enabled: bool)

  datatype TestRow = TestRow(name: string, description: Option<string>, configuration: Workload, tags: seq<string>,
                             status: Status, version: int)

  /** A fresh identifier: the transaction that drew it and how many it had drawn. */
  datatype RowId = RowId(txn: TxnId, index: nat)

  datatype Document = Document(row: TestRow, plans: map<RowId, PlanSpec>, rules: map<RowId, RuleSpec>)

  /** A PATCH body: `None` is a field the client left out. */
  datatype TestUpdate = TestUpdate(version: int, name: Option<string>, description: Option<Option<string>>,
                                   configuration: Option<Workload>, plans: Option<seq<PlanSpec>>,
                                   rules: Option<seq<RuleSpec>>, tags: Option<seq<string>>)

  datatype TestCreate = TestCreate(name: string, description: Option<string>, configuration: Workload,
                                   plans: seq<PlanSpec>, rules: seq<RuleSpec>, tags: seq<string>)

  datatype Column = Name | Description | Configuration | Tags | Plans | SlaRules | Version

  datatype Value =
    | Text(text: string) | MaybeText(maybe: Option<string>) | Load(load: Workload) | Labels(labels: seq<string>)
                 | PlanList(plans: seq<PlanSpec>) | RuleList(rules: seq<RuleSpec>) | Number(number: int)

  const UPDATABLE: set<Column> := {Name, Description, Configuration, Tags}

  datatype Audit = Created | Updated(fields: set<Column>, version: int) | Deleted

  datatype Problems = Problems(pool: Option<Id>, repos: seq<Id>)

  datatype Failure = NotFound | ValidationFailed(problems: Problems) | Conflict(expected: int)

  // ---- What one edit does -------------------------------------------------------------------

  function Or<T>(given: Option<T>, current: T): T {
    if given.Some? then given.value else current
  }

  /** The row after the edit: absent fields are left alone and the version goes up by one. */
  function Patched(row: TestRow, b: TestUpdate): TestRow {
    row.(name := Or(b.name, row.name), description := Or(b.description, row.description),
         configuration := Or(b.configuration, row.configuration), tags := Or(b.tags, row.tags),
         version := row.version + 1)
  }

  function PlanRows(t: TxnId, plans: seq<PlanSpec>): map<RowId, PlanSpec> {
    map k: nat | k < |plans| :: RowId(t, k) := plans[k]
  }

  function RuleRows(t: TxnId, rules: seq<RuleSpec>): map<RowId, RuleSpec> {
    map k: nat | k < |rules| :: RowId(t, k) := rules[k]
  }

  lemma RowsPrefix(t: TxnId, plans: seq<PlanSpec>, k: nat)
    requires k < |plans|
    ensures PlanRows(t, plans[..k + 1]) == PlanRows(t, plans[..k])[RowId(t, k) := plans[k]]
  {
  }

  lemma RulesPrefix(t: TxnId, rules: seq<RuleSpec>, k: nat)
    requires k < |rules|
    ensures RuleRows(t, rules[..k + 1]) == RuleRows(t, rules[..k])[RowId(t, k) := rules[k]]
  {
  }

  function Fields(b: TestUpdate): set<Column> {
    (if b.name.Some? then {Name} else {}) + (if b.description.Some? then {Description} else {})
      + (if b.configuration.Some? then {Configuration} else {}) + (if b.tags.Some? then {Tags} else {})
  }

  datatype Program = Update(body: TestUpdate) | Archive

  /** The whole edit at once. None means it changes nothing: a stale version, or a test already archived. */
  function Atomic(d: Document, t: TxnId, p: Program): Option<Document> {
    match p
    case Update(b) =>
      if d.row.version != b.version then None
      else Some(Document(Patched(d.row, b),
                         if b.plans.Some? then PlanRows(t, b.plans.value) else d.plans,
                         if b.rules.Some? then RuleRows(t, b.rules.value) else d.rules))
    case Archive =>
      if d.row.status == Archived then None else Some(d.(row := d.row.(status := Archived)))
  }

  function AuditOf(d: Document, p: Program): Audit {
    match p
    case Update(b) => Updated(Fields(b), d.row.version + 1)
    case Archive => Deleted
  }

  function Initial(t: TxnId, c: TestCreate): Document {
    Document(TestRow(c.name, c.description, c.configuration, c.tags, Draft, 1), PlanRows(t, c.plans),
             RuleRows(t, c.rules))
  }

  predicate References(d: Document, pools: set<Id>, repos: set<Id>) {
    && d.row.configuration.pool in pools
    && forall r :: r in d.plans ==> d.plans[r].repo in repos
  }

  /** Every row of the table once, in some order. */
  ghost predicate Enumerates<T(!new)>(answer: seq<T>, table: map<RowId, T>) {
    exists ids: seq<RowId> :: |ids| == |answer| == |table|
      && (forall i, j :: 0 <= i < j < |ids| ==> ids[i] != ids[j])
      && (forall i :: 0 <= i < |ids| ==> ids[i] in table && table[ids[i]] == answer[i])
  }

  /** The rows of a table in `ORDER BY execution_order`; rows that tie come in any order. */
  ghost predicate IsListing(answer: seq<PlanSpec>, table: map<RowId, PlanSpec>) {
    && Enumerates(answer, table)
    && (forall i, j :: 0 <= i < j < |answer| ==> answer[i].executionOrder <= answer[j].executionOrder)
  }

  /** The rows of a table in `ORDER BY name`. */
  ghost predicate IsRuleListing(answer: seq<RuleSpec>, table: map<RowId, RuleSpec>) {
    && Enumerates(answer, table)
    && (forall i, j :: 0 <= i < j < |answer| ==> !StringBefore(answer[j].name, answer[i].name))
  }

  /** What the rows of a table say, whatever their ids. */
  ghost function Specs<T(!new)>(table: map<RowId, T>): multiset<T>
    decreases |table|
  {
    if |table| == 0 then multiset{} else
    var r :| r in table;
    Specs(table - {r}) + multiset{table[r]}
  }

  lemma SpecsChosen<T(!new)>(table: map<RowId, T>) returns (c: RowId)
    requires |table| != 0
    ensures c in table && Specs(table) == Specs(table - {c}) + multiset{table[c]}
    ensures |table - {c}| < |table|
  {
    c :| c in table && Specs(table) == Specs(table - {c}) + multiset{table[c]};
  }

  lemma {:induction false} SpecsWithout<T(!new)>(table: map<RowId, T>, r: RowId)
    requires r in table
    ensures Specs(table) == Specs(table - {r}) + multiset{table[r]}
    decreases |table|
  {
    hide Specs;
    assert table != map[] && |table| != 0;
    var c := SpecsChosen(table);
    if c != r {
      var both := table - {c, r};
      assert table - {c} - {r} == both && table - {r} - {c} == both;
      SpecsWithout(table - {c}, r);
      assert |table - {r}| < |table|;
      SpecsWithout(table - {r}, c);
    }
  }

  lemma {:induction false} HeldBySome<T(!new)>(table: map<RowId, T>, spec: T) returns (r: RowId)
    requires spec in Specs(table)
    ensures r in table && table[r] == spec
    decreases |table|
  {
    r :| r in table && Specs(table) == Specs(table - {r}) + multiset{table[r]};
    if table[r] != spec {
      r := HeldBySome(table - {r}, spec);
    }
  }

  /** Listing a table is listing what its rows say. */
  lemma EnumeratesExactly<T(!new)>(answer: seq<T>, table: map<RowId, T>)
    ensures Enumerates(answer, table) <==> multiset(answer) == Specs(table)
  {
    if Enumerates(answer, table) {
      var ids: seq<RowId> :| |ids| == |answer| == |table|
        && (forall i, j :: 0 <= i < j < |ids| ==> ids[i] != ids[j])
        && (forall i :: 0 <= i < |ids| ==> ids[i] in table && table[ids[i]] == answer[i]);
      EnumeratedSpecs(answer, table, ids);
    }
    if multiset(answer) == Specs(table) {
      var ids := IdsFor(answer, table);
    }
  }

  lemma {:induction false} EnumeratedSpecs<T(!new)>(answer: seq<T>, table: map<RowId, T>, ids: seq<RowId>)
    requires |ids| == |answer| == |table| && forall i, j :: 0 <= i < j < |ids| ==> ids[i] != ids[j]
    requires forall i :: 0 <= i < |ids| ==> ids[i] in table && table[ids[i]] == answer[i]
    ensures multiset(answer) == Specs(table)
  {
    if answer == [] {
      assert |table| == 0;
    } else {
      var n := |answer| - 1;
      SpecsWithout(table, ids[n]);
      EnumeratedSpecs(answer[..n], table - {ids[n]}, ids[..n]);
      assert answer == answer[..n] + [answer[n]];
    }
  }

  lemma {:induction false} SpecsCount<T(!new)>(table: map<RowId, T>)
    ensures |Specs(table)| == |table|
    decreases |table|
  {
    if |table| != 0 {
      var r :| r in table && Specs(table) == Specs(table - {r}) + multiset{table[r]};
      SpecsCount(table - {r});
    }
  }

  lemma LastSpec<T(!new)>(answer: seq<T>, table: map<RowId, T>) returns (r: RowId)
    requires answer != [] && multiset(answer) == Specs(table)
    ensures r in table && table[r] == answer[|answer| - 1]
    ensures multiset(answer[..|answer| - 1]) == Specs(table - {r})
  {
    var front, last := answer[..|answer| - 1], answer[|answer| - 1];
    assert answer == front + [last];
    assert last in multiset(answer);
    r := HeldBySome(table, last);
    SpecsWithout(table, r);
    hide Specs;
    assert multiset(front) == multiset(answer) - multiset{last};
    assert Specs(table - {r}) == Specs(table) - multiset{last};
  }

  lemma {:induction false} IdsFor<T(!new)>(answer: seq<T>, table: map<RowId, T>) returns (ids: seq<RowId>)
    requires multiset(answer) == Specs(table)
    ensures |ids| == |answer| == |table| && forall i, j :: 0 <= i < j < |ids| ==> ids[i] != ids[j]
    ensures forall i :: 0 <= i < |ids| ==> ids[i] in table && table[ids[i]] == answer[i]
    decreases |answer|
  {
    hide Specs;
    if answer == [] {
      ids := [];
      SpecsCount(table);
    } else {
      var r := LastSpec(answer, table);
      var rest := IdsFor(answer[..|answer| - 1], table - {r});
      ids := rest + [r];
      assert forall i :: 0 <= i < |rest| ==> rest[i] in table - {r};
    }
  }

  /** The listing found by putting the row ids in order. */
  lemma ArrangedIsListing(table: map<RowId, PlanSpec>, ids: seq<RowId>, answer: seq<PlanSpec>)
    requires Arranges((a: RowId, b: RowId) =>
                      a in table && b in table && table[a].executionOrder < table[b].executionOrder, table.Keys, ids)
    requires |answer| == |ids| && forall i :: 0 <= i < |ids| ==> ids[i] in table && answer[i] == table[ids[i]]
    ensures IsListing(answer, table)
  {
    assert forall i, j :: 0 <= i < j < |ids| ==> ids[i] != ids[j];
    DistinctCount(ids, table.Keys);
  }

  // ---- The dictionary of changes ------------------------------------------------------------

  /** What the body holds for a column, if the client set it. */
  function Held(b: TestUpdate, c: Column): Option<Value> {
    match c
    case Name => (match b.name case Some(x) => Some(Text(x)) case None => None)
    case Description => (match b.description case Some(x) => Some(MaybeText(x)) case None => None)
    case Configuration => (match b.configuration case Some(x) => Some(Load(x)) case None => None)
    case Plans => (match b.plans case Some(x) => Some(PlanList(x)) case None => None)
    case SlaRules => (match b.rules case Some(x) => Some(RuleList(x)) case None => None)
    case Tags => (match b.tags case Some(x) => Some(Labels(x)) case None => None)
    case Version => Some(Number(b.version))
  }

  const COLUMNS: seq<Column> := [Version, Name, Description, Configuration, Plans, SlaRules, Tags]

  /** The fields the client set, as the body dumps them. */
  function Dump(b: TestUpdate, columns: seq<Column> := COLUMNS): seq<(Column, Value)> {
    if columns == [] then [] else
    var last := columns[|columns| - 1];
    Dump(b, columns[..|columns| - 1]) + (match Held(b, last) case Some(v) => [(last, v)] case None => [])
  }

  function Collected(fields: seq<(Column, Value)>): map<Column, Value> {
    if fields == [] then map[] else
    var (column, value) := fields[|fields| - 1];
    var earlier := Collected(fields[..|fields| - 1]);
    if column in UPDATABLE then earlier[column := value] else earlier
  }

  method CollectChanges(fields: seq<(Column, Value)>) returns (changes: map<Column, Value>)
    ensures changes == Collected(fields)
  {
    changes := map[];
    for i := 0 to |fields|
      invariant changes == Collected(fields[..i])
    {
      assert fields[..i + 1][..i] == fields[..i];
      if fields[i].0 in UPDATABLE {
        changes := changes[fields[i].0 := fields[i].1];
      }
    }
    assert fields[..|fields|] == fields;
  }

  predicate Typed(changes: map<Column, Value>) {
    && changes.Keys <= UPDATABLE
    && (Name in changes ==> changes[Name].Text?) && (Description in changes ==> changes[Description].MaybeText?)
    && (Configuration in changes ==> changes[Configuration].Load?) && (Tags in changes ==> changes[Tags].Labels?)
  }

  /** The SET clause: the collected columns, and the version plus one. */
  function Assigned(row: TestRow, changes: map<Column, Value>): TestRow
    requires Typed(changes)
  {
    row.(name := if Name in changes then changes[Name].text else row.name,
         description := if Description in changes then changes[Description].maybe else row.description,
         configuration := if Configuration in changes then changes[Configuration].load else row.configuration,
         tags := if Tags in changes then changes[Tags].labels else row.tags,
         version := row.version + 1)
  }

  lemma DumpedLast(b: TestUpdate, columns: seq<Column>)
    requires columns != []
    ensures var (front, last) := (columns[..|columns| - 1], columns[|columns| - 1]);
      var earlier := Collected(Dump(b, front));
      Collected(Dump(b, columns)) == if Held(b, last).Some? && last in UPDATABLE
        then earlier[last := Held(b, last).value] else earlier
  {
    hide Held;
    var front, last := columns[..|columns| - 1], columns[|columns| - 1];
    var fields := Dump(b, columns);
    if Held(b, last).Some? {
      assert fields[|fields| - 1] == (last, Held(b, last).value);
      assert fields[..|fields| - 1] == Dump(b, front);
    } else {
      assert fields == Dump(b, front);
    }
  }

  lemma {:induction false} CollectedIsHeld(b: TestUpdate, columns: seq<Column>, c: Column)
    ensures c in Collected(Dump(b, columns)) <==> c in columns && c in UPDATABLE && Held(b, c).Some?
    ensures c in Collected(Dump(b, columns)) ==> Held(b, c) == Some(Collected(Dump(b, columns))[c])
  {
    hide Held;
    if columns != [] {
      var front, last := columns[..|columns| - 1], columns[|columns| - 1];
      CollectedIsHeld(b, front, c);
      assert columns == front + [last];
      DumpedLast(b, columns);
    }
  }

  /** Collecting and assigning columns is the patch, and the document's plans, rules and version never
      become columns. */
  lemma ChangesArePatch(b: TestUpdate, row: TestRow)
    ensures var changes := Collected(Dump(b));
      Typed(changes) && Assigned(row, changes) == Patched(row, b) && changes.Keys == Fields(b)
  {
    var changes := Collected(Dump(b));
    forall c ensures c in changes <==> c in UPDATABLE && Held(b, c).Some? {
      CollectedIsHeld(b, COLUMNS, c);
      EveryColumn(c);
    }
    forall c | c in changes ensures Held(b, c) == Some(changes[c]) {
      CollectedIsHeld(b, COLUMNS, c);
    }
    assert Held(b, Name).Some? <==> Name in Fields(b);
    assert Held(b, Description).Some? <==> Description in Fields(b);
    assert Held(b, Configuration).Some? <==> Configuration in Fields(b);
    assert Held(b, Tags).Some? <==> Tags in Fields(b);
  }

  lemma EveryColumn(c: Column)
    ensures c in COLUMNS
  {
    assert COLUMNS[0] == Version && COLUMNS[1] == Name && COLUMNS[2] == Description && COLUMNS[3] == Configuration;
    assert COLUMNS[4] == Plans && COLUMNS[5] == SlaRules && COLUMNS[6] == Tags;
  }
}
