/** Pinning a plan at a commit: the network between two transactions, one row per (repository, commit, plan path). */
module Pinning {
  import opened Wrappers
  import opened Orders
  import opened Tables
  import Jmx

  type RepoId = nat

  type RequestId = nat

  type Sha = string

  // ---- The stored summary -------------------------------------------------------------------

  datatype Field = Text(text: string) | Port(port: Option<nat>)

  datatype Value = Strings(strings: seq<string>) | Objects(objects: seq<map<string, Field>>)

  type Metadata = map<string, Value>

  const THREAD_GROUPS := "threadGroups"
  const CONTROLLERS := "transactionControllers"
  const TIMERS := "timers"
  const VARIABLES := "variables"
  const DATA_FILES := "dataFiles"
  const TARGETS := "targets"

  function TargetAsObject(t: Jmx.Target): map<string, Field> {
    map["scheme" := Text(t.scheme), "host" := Text(t.host), "port" := Port(t.port)]
  }

  function TargetsAsObjects(targets: seq<Jmx.Target>): seq<map<string, Field>> {
    seq(|targets|, i requires 0 <= i < |targets| => TargetAsObject(targets[i]))
  }

  function SummaryAsMetadata(s: Jmx.PlanSummary): Metadata {
    map[THREAD_GROUPS := Strings(s.threadGroups), CONTROLLERS := Strings(s.transactionControllers),
        TIMERS := Strings(s.timers), VARIABLES := Strings(s.variables), DATA_FILES := Strings(s.dataFiles),
        TARGETS := Objects(TargetsAsObjects(s.targets))]
  }

  /** `metadata.get(key, [])`, None when what is there is no list of strings. */
  function StringsAt(m: Metadata, key: string): Option<seq<string>> {
    if key !in m then Some([]) else if m[key].Strings? then Some(m[key].strings) else None
  }

  /** `PlanTargetResponse(**target)`: the three fields, no other, of the right kinds. */
  function ObjectAsTarget(o: map<string, Field>): Option<Jmx.Target> {
    if && o.Keys == {"scheme", "host", "port"} && o["scheme"].Text? && o["host"].Text? && o["port"].Port?
    then Some(Jmx.Target(o["scheme"].text, o["host"].text, o["port"].port))
    else None
  }

  function ObjectsAsTargets(objects: seq<map<string, Field>>): Option<seq<Jmx.Target>> {
    if objects == [] then Some([]) else
    match (ObjectsAsTargets(objects[..|objects| - 1]), ObjectAsTarget(objects[|objects| - 1]))
    case (Some(front), Some(last)) => Some(front + [last])
    case _ => None
  }

  function TargetsAt(m: Metadata): Option<seq<Jmx.Target>> {
    if TARGETS !in m then Some([]) else if m[TARGETS].Objects? then ObjectsAsTargets(m[TARGETS].objects) else None
  }

  /** The summary a response carries: none for empty metadata, an error for metadata of another shape. */
  function SummaryFrom(m: Metadata): Result<Option<Jmx.PlanSummary>, ()> {
    if m == map[] then Ok(None) else
    match (StringsAt(m, THREAD_GROUPS), StringsAt(m, CONTROLLERS), StringsAt(m, TIMERS),
           StringsAt(m, VARIABLES), StringsAt(m, DATA_FILES), TargetsAt(m))
    case (Some(a), Some(b), Some(c), Some(d), Some(e), Some(f)) => Ok(Some(Jmx.PlanSummary(a, b, c, d, e, f)))
    case _ => Err(())
  }

  lemma {:induction false} TargetsComeBack(targets: seq<Jmx.Target>)
    ensures ObjectsAsTargets(TargetsAsObjects(targets)) == Some(targets)
  {
    if targets != [] {
      var front, last := targets[..|targets| - 1], targets[|targets| - 1];
      var objects := TargetsAsObjects(targets);
      assert objects[..|objects| - 1] == TargetsAsObjects(front);
      assert objects[|objects| - 1] == TargetAsObject(last);
      TargetComesBack(last);
      TargetsComeBack(front);
      assert targets == front + [last];
    }
  }

  lemma TargetComesBack(t: Jmx.Target)
    ensures ObjectAsTarget(TargetAsObject(t)) == Some(t)
  {
    assert "scheme"[0] != "host"[0] && "host"[0] != "port"[0] && "scheme"[0] != "port"[0];
  }

  lemma KeysDiffer()
    ensures |THREAD_GROUPS| == 12 && |CONTROLLERS| == 22 && |TIMERS| == 6 && |VARIABLES| == 9 && |DATA_FILES| == 9
    ensures |TARGETS| == 7
    ensures VARIABLES != DATA_FILES
  {
    assert VARIABLES[0] != DATA_FILES[0];
  }

  /** What is stored is the summary itself. */
  lemma SummaryComesBack(s: Jmx.PlanSummary)
    ensures SummaryFrom(SummaryAsMetadata(s)) == Ok(Some(s))
  {
    KeysDiffer();
    TargetsComeBack(s.targets);
    assert THREAD_GROUPS in SummaryAsMetadata(s);
  }

  // ---- Requests that race -------------------------------------------------------------------

  /** A plan file: its text, the elements of its document, its checksum. */
  datatype PlanFile = PlanFile(text: string, document: seq<Jmx.XmlElement>, checksum: string)

  /** What each commit holds, fixed for ever; None where there is no plan or it does not parse. */
  type Content = (RepoId, Sha, string) -> Option<PlanFile>

  datatype Version = Version(repo: RepoId, sha: Sha, path: string, checksum: string, metadata: Metadata)

  datatype Repo = Repo(planPath: string, defaultRef: string)

  datatype Phase =
    | Reading | Network(path: string, ref: string) | Looking(candidate: Version) | Inserting(candidate: Version)
    | Auditing(id: RequestId) | Ending(created: bool, id: RequestId) | Responded(created: bool, id: RequestId)
    | RolledBack

  /** A version row's fresh id is the request that made it: each makes at most one. */
  datatype Pin = Pin(repo: RepoId, ref: Option<string>, phase: Phase, rows: Pending<RequestId, Version>,
                     audit: Option<RequestId>)

  datatype State = State(repos: map<RepoId, Repo>, rows: map<RequestId, Version>, audits: seq<RequestId>,
                         pins: map<RequestId, Pin>)

  /** What Git answers in the network half: the commit each ref names at that moment, and the reading of the plan. */
  datatype Outside = Outside(resolve: (RepoId, string) -> Option<Sha>, summary: Jmx.PlanSummary)

  datatype Action =
    | Request(t: RequestId, repo: RepoId, ref: Option<string>)
    | Run(t: RequestId, outside: Option<Outside>, pick: Option<RequestId>)
    | Fail(t: RequestId)
    | SetRepo(repo: RepoId, to: Repo)

  predicate Over(p: Phase) {
    p.Responded? || p.RolledBack?
  }

  function With(s: State, t: RequestId, x: Pin): State {
    s.(pins := s.pins[t := x])
  }

  function RollBack(s: State, t: RequestId): State
    requires t in s.pins
  {
    With(s, t, s.pins[t].(phase := RolledBack, rows := Clean(), audit := None))
  }

  predicate SameKey(v: Version, w: Version) {
    v.repo == w.repo && v.sha == w.sha && v.path == w.path
  }

  function ByCommit(rows: map<RequestId, Version>, candidate: Version): set<RequestId> {
    set id | id in rows && SameKey(rows[id], candidate)
  }

  /** What the network half makes of a resolved ref and the plan at that commit. */
  ghost predicate Resolves(content: Content, repo: RepoId, path: string, sha: Sha, summary: Jmx.PlanSummary) {
    var file := content(repo, sha, path);
    file.Some? && Jmx.Describes(summary, Jmx.Seen(file.value.document), file.value.text)
  }

  ghost function Candidate(content: Content, repo: RepoId, path: string, sha: Sha, summary: Jmx.PlanSummary): Version
    requires Resolves(content, repo, path, sha, summary)
  {
    Version(repo, sha, path, content(repo, sha, path).value.checksum, SummaryAsMetadata(summary))
  }

  /** `body.ref or row.default_ref`: an empty ref counts as none. */
  function RefOr(ref: Option<string>, defaultRef: string): string {
    if ref.Some? && ref.value != "" then ref.value else defaultRef
  }

  ghost predicate KeyLocked(s: State, t: RequestId, v: Version) {
    exists u, id :: u in s.pins && u != t && id in s.pins[u].rows.puts && SameKey(s.pins[u].rows.puts[id], v)
  }

  ghost function RunStep(content: Content, s: State, t: RequestId,
                         outside: Option<Outside>, pick: Option<RequestId>): State
    requires t in s.pins
  {
    var x := s.pins[t];
    match x.phase
    case Reading =>
      if x.repo !in s.repos then RollBack(s, t)
      else
        With(s, t, x.(phase := Network(s.repos[x.repo].planPath, RefOr(x.ref, s.repos[x.repo].defaultRef))))
    case Network(path, ref) =>
      if outside.None? then RollBack(s, t) else
      var sha := outside.value.resolve(x.repo, ref);
      if sha.Some? && Resolves(content, x.repo, path, sha.value, outside.value.summary) then
        With(s, t, x.(phase := Looking(Candidate(content, x.repo, path, sha.value, outside.value.summary))))
      else RollBack(s, t)
    case Looking(candidate) =>
      if pick.Some? then
        if pick.value in ByCommit(s.rows, candidate) then With(s, t, x.(phase := Ending(false, pick.value))) else s
      else if ByCommit(s.rows, candidate) == {} then With(s, t, x.(phase := Inserting(candidate)))
      else s
    case Inserting(candidate) =>
      if ByCommit(s.rows, candidate) != {} then RollBack(s, t)   // the unique constraint
      else if KeyLocked(s, t, candidate) then s
      else With(s, t, x.(rows := Put(x.rows, t, candidate), phase := Auditing(t)))
    case Auditing(id) => With(s, t, x.(audit := Some(id), phase := Ending(true, id)))
    case Ending(created, id) =>
      s.(rows := See(s.rows, x.rows), audits := s.audits + (if x.audit.Some? then [x.audit.value] else []),
         pins := s.pins[t := x.(phase := Responded(created, id), rows := Clean(), audit := None)])
    case _ => s
  }

  ghost function Step(content: Content, s: State, a: Action): State {
    match a
    case Request(t, repo, ref) => if t in s.pins then s else With(s, t, Pin(repo, ref, Reading, Clean(), None))
    case Run(t, outside, pick) => if t in s.pins then RunStep(content, s, t, outside, pick) else s
    case Fail(t) => if t in s.pins && !Over(s.pins[t].phase) then RollBack(s, t) else s
    case SetRepo(repo, to) => s.(repos := s.repos[repo := to])
  }

  ghost function Exec(content: Content, s: State, run: seq<Action>): State {
    if run == [] then s else Step(content, Exec(content, s, run[..|run| - 1]), run[|run| - 1])
  }

  ghost predicate Init(s: State) {
    s.rows == map[] && s.audits == [] && s.pins == map[]
  }

  // ---- What every step keeps ----------------------------------------------------------------

  /** The row tells what its commit holds. */
  ghost predicate Truthful(content: Content, v: Version) {
    exists summary ::
      Resolves(content, v.repo, v.path, v.sha, summary) && v == Candidate(content, v.repo, v.path, v.sha, summary)
  }

  ghost predicate PinOk(content: Content, s: State, t: RequestId, x: Pin) {
    match x.phase
    case Looking(candidate) => Quiet(x) && Truthful(content, candidate) && candidate.repo == x.repo
    case Inserting(candidate) => Quiet(x) && Truthful(content, candidate) && t !in s.rows && candidate.repo == x.repo
    case Auditing(id) => x.audit == None && id == t && Inserted(content, s, t, x)
    case Ending(created, id) =>
      if created then id == t && x.audit == Some(t) && Inserted(content, s, t, x)
        else Quiet(x) && id in s.rows && s.rows[id].repo == x.repo
    case Responded(created, id) => Quiet(x) && id in s.rows && s.rows[id].repo == x.repo && (created ==> id == t)
    case _ => Quiet(x)
  }

  predicate Quiet(x: Pin) {
    x.rows == Clean() && x.audit == None
  }

  /** It holds the only uncommitted row for a key nobody has committed. */
  ghost predicate Inserted(content: Content, s: State, t: RequestId, x: Pin) {
    && t !in s.rows && t in x.rows.puts && x.rows == Pending(map[t := x.rows.puts[t]], {})
    && Truthful(content, x.rows.puts[t]) && x.rows.puts[t].repo == x.repo
    && ByCommit(s.rows, x.rows.puts[t]) == {} && !KeyLocked(s, t, x.rows.puts[t])
  }

  ghost predicate OnePerKey(rows: map<RequestId, Version>) {
    forall i, j :: i in rows && j in rows && SameKey(rows[i], rows[j]) ==> i == j
  }

  /** One audit row for each version row, and no other. */
  ghost predicate AuditedOnce(s: State) {
    && (forall i, j :: 0 <= i < j < |s.audits| ==> s.audits[i] != s.audits[j])
    && (forall id :: id in s.audits <==> id in s.rows)
  }

  ghost predicate Inv(content: Content, s: State) {
    && OnePerKey(s.rows) && AuditedOnce(s)
    && (forall id :: id in s.rows ==>
          Truthful(content, s.rows[id]) && id in s.pins && s.pins[id].phase == Responded(true, id))
    && (forall t :: t in s.pins ==> PinOk(content, s, t, s.pins[t]))
  }

  /** A step of one request that writes nothing and ends nothing of its own. */
  lemma QuietKeeps(content: Content, s: State, t: RequestId, x: Pin)
    requires Inv(content, s) && Quiet(x) && PinOk(content, s, t, x)
    requires t in s.pins ==> !s.pins[t].phase.Responded?
    requires !x.phase.Auditing? && (x.phase.Ending? ==> !x.phase.created)
    ensures Inv(content, With(s, t, x))
  {
    hide Truthful, OnePerKey;
    var s' := With(s, t, x);
    forall u | u in s'.pins ensures PinOk(content, s', u, s'.pins[u]) {
      if u != t {
        assert PinOk(content, s, u, s.pins[u]);
      }
    }
  }

  lemma InsertKeeps(content: Content, s: State, t: RequestId)
    requires Inv(content, s) && t in s.pins && s.pins[t].phase.Inserting?
    ensures Inv(content, RunStep(content, s, t, None, None))
  {
    hide Truthful, OnePerKey;
    var x := s.pins[t];
    var candidate := x.phase.candidate;
    assert PinOk(content, s, t, x);
    if ByCommit(s.rows, candidate) != {} {
      QuietKeeps(content, s, t, x.(phase := RolledBack, rows := Clean(), audit := None));
    } else if !KeyLocked(s, t, candidate) {
      var y := x.(rows := Put(x.rows, t, candidate), phase := Auditing(t));
      var s' := With(s, t, y);
      forall u | u in s'.pins ensures PinOk(content, s', u, s'.pins[u]) {
        if u != t {
          assert PinOk(content, s, u, s.pins[u]);
          StillAlone(content, s, t, u, y, candidate);
        }
      }
    }
  }

  lemma StillAlone(content: Content, s: State, t: RequestId, u: RequestId, y: Pin, candidate: Version)
    requires u in s.pins && u != t && y.rows == Pending(map[t := candidate], {}) && !KeyLocked(s, t, candidate)
    requires t in s.pins && s.pins[t].rows == Clean()
    ensures Inserted(content, s, u, s.pins[u]) ==> Inserted(content, With(s, t, y), u, s.pins[u])
  {
    hide Truthful, ByCommit;
  }

  lemma AuditKeeps(content: Content, s: State, t: RequestId)
    requires Inv(content, s) && t in s.pins && s.pins[t].phase.Auditing?
    ensures Inv(content, RunStep(content, s, t, None, None))
  {
    hide Truthful, OnePerKey;
    var x := s.pins[t];
    assert PinOk(content, s, t, x);
    var y := x.(audit := Some(t), phase := Ending(true, t));
    var s' := With(s, t, y);
    forall u | u in s'.pins ensures PinOk(content, s', u, s'.pins[u]) {
      assert PinOk(content, s, u, s.pins[u]);
      SameRowsInserted(content, s, t, y, u);
    }
  }

  lemma SameRowsInserted(content: Content, s: State, t: RequestId, y: Pin, u: RequestId)
    requires t in s.pins && u in s.pins && y.rows == s.pins[t].rows && y.repo == s.pins[t].repo
    ensures Inserted(content, s, u, s.pins[u]) ==> Inserted(content, With(s, t, y), u, With(s, t, y).pins[u])
  {
    hide Truthful, ByCommit;
  }

  lemma NewKeyAlone(rows: map<RequestId, Version>, t: RequestId, v: Version)
    requires OnePerKey(rows) && ByCommit(rows, v) == {} && t !in rows
    ensures OnePerKey(rows[t := v])
  {
    assert forall i :: i in rows ==> i !in ByCommit(rows, v);
  }

  lemma CommitPins(content: Content, s: State, t: RequestId)
    requires t in s.pins && s.pins[t].phase == Ending(true, t) && Inserted(content, s, t, s.pins[t])
    requires forall u :: u in s.pins ==> PinOk(content, s, u, s.pins[u])
    requires RunStep(content, s, t, None, None).rows == s.rows[t := s.pins[t].rows.puts[t]]
    ensures var s' := RunStep(content, s, t, None, None); forall u :: u in s'.pins ==> PinOk(content, s', u, s'.pins[u])
  {
    hide Truthful, ByCommit;
    var s' := RunStep(content, s, t, None, None);
    forall u | u in s'.pins ensures PinOk(content, s', u, s'.pins[u]) {
      if u != t {
        assert PinOk(content, s, u, s.pins[u]);
        OtherAfterCommit(content, s, t, u, s.pins[t].rows.puts[t]);
        assert s.pins[u].phase.Inserting? ==> u != t && u !in s'.rows;
      }
    }
  }

  lemma CommitAudits(s: State, t: RequestId)
    requires t in s.pins && s.pins[t].phase == Ending(true, t) && s.pins[t].audit == Some(t) && AuditedOnce(s)
    requires t !in s.rows
    requires t in s.pins[t].rows.puts && s.pins[t].rows == Pending(map[t := s.pins[t].rows.puts[t]], {})
    ensures AuditedOnce(State(s.repos, See(s.rows, s.pins[t].rows), s.audits + [t], s.pins))
    ensures See(s.rows, s.pins[t].rows) == s.rows[t := s.pins[t].rows.puts[t]]
  {
  }

  lemma CommitKeeps(content: Content, s: State, t: RequestId)
    requires Inv(content, s) && t in s.pins && s.pins[t].phase == Ending(true, t)
    ensures Inv(content, RunStep(content, s, t, None, None))
    ensures t in s.pins[t].rows.puts && t !in s.rows
    ensures RunStep(content, s, t, None, None).rows == s.rows[t := s.pins[t].rows.puts[t]]
  {
    hide Truthful, ByCommit, KeyLocked, OnePerKey, See;
    var x, s' := s.pins[t], RunStep(content, s, t, None, None);
    assert PinOk(content, s, t, x);
    CommitAudits(s, t);
    assert s'.audits == s.audits + [t];
    NewKeyAlone(s.rows, t, x.rows.puts[t]);
    CommitPins(content, s, t);
    hide PinOk;
  }

  lemma OtherAfterCommit(content: Content, s: State, t: RequestId, u: RequestId, v: Version)
    requires t in s.pins && u in s.pins && u != t && Inserted(content, s, t, s.pins[t]) && v == s.pins[t].rows.puts[t]
    requires RunStep(content, s, t, None, None).rows == s.rows[t := v] && s.pins[t].phase == Ending(true, t)
    ensures var s' := RunStep(content, s, t, None, None);
      Inserted(content, s, u, s.pins[u]) ==> Inserted(content, s', u, s.pins[u])
  {
    hide Truthful;
    var y := s.pins[u];
    if Inserted(content, s, u, y) {
      var w := y.rows.puts[u];
      assert !SameKey(v, w);
      assert forall i :: i in s.rows ==> i !in ByCommit(s.rows, w);
      assert ByCommit(s.rows[t := v], w) == {};
    }
  }

  lemma CommitNothingKeeps(content: Content, s: State, t: RequestId, id: RequestId)
    requires Inv(content, s) && t in s.pins && s.pins[t].phase == Ending(false, id)
    ensures Inv(content, RunStep(content, s, t, None, None)) && RunStep(content, s, t, None, None).rows == s.rows
  {
    hide Truthful, OnePerKey;
    var x := s.pins[t];
    assert PinOk(content, s, t, x);
    SeeClean(s.rows);
    assert s.audits + [] == s.audits;
    QuietKeeps(content, s, t, x.(phase := Responded(false, id)));
  }

  /** Up to the second SELECT nothing is written. */
  lemma ReadingIsQuiet(content: Content, s: State, t: RequestId,
                       outside: Option<Outside>, pick: Option<RequestId>)
    requires t in s.pins && PinOk(content, s, t, s.pins[t]) && (t in s.rows ==> s.pins[t].phase.Responded?)
    requires s.pins[t].phase.Reading? || s.pins[t].phase.Network? || s.pins[t].phase.Looking?
    ensures var s' := RunStep(content, s, t, outside, pick);
      && t in s'.pins && s' == With(s, t, s'.pins[t]) && Quiet(s'.pins[t]) && PinOk(content, s, t, s'.pins[t])
      && !s'.pins[t].phase.Auditing? && (s'.pins[t].phase.Ending? ==> !s'.pins[t].phase.created)
  {
    hide Resolves, Candidate;
    var x := s.pins[t];
    assert With(s, t, x) == s;
    if x.phase.Network? && outside.Some? {
      var sha := outside.value.resolve(x.repo, x.phase.ref);
      if sha.Some? && Resolves(content, x.repo, x.phase.path, sha.value, outside.value.summary) {
        CandidateIsTruthful(content, x.repo, x.phase.path, sha.value, outside.value.summary);
      }
    }
  }

  lemma CandidateIsTruthful(content: Content, repo: RepoId, path: string, sha: Sha, summary: Jmx.PlanSummary)
    requires Resolves(content, repo, path, sha, summary)
    ensures var v := Candidate(content, repo, path, sha, summary);
      Truthful(content, v) && v.repo == repo && v.path == path && v.sha == sha
  {
  }

  lemma EndingKeeps(content: Content, s: State, t: RequestId,
                    outside: Option<Outside>, pick: Option<RequestId>)
    requires Inv(content, s) && t in s.pins && s.pins[t].phase.Ending?
    ensures Inv(content, RunStep(content, s, t, outside, pick))
    ensures Extends(s.rows, RunStep(content, s, t, outside, pick).rows)
  {
    hide Truthful, OnePerKey, AuditedOnce, ByCommit, KeyLocked;
    assert PinOk(content, s, t, s.pins[t]);
    hide PinOk, See, Inserted;
    assert RunStep(content, s, t, outside, pick) == RunStep(content, s, t, None, None);
    hide RunStep;
    if s.pins[t].phase.created {
      CommitKeeps(content, s, t);
    } else {
      CommitNothingKeeps(content, s, t, s.pins[t].phase.id);
    }
  }

  lemma RunKeeps(content: Content, s: State, t: RequestId,
                 outside: Option<Outside>, pick: Option<RequestId>)
    requires Inv(content, s) && t in s.pins
    ensures Inv(content, RunStep(content, s, t, outside, pick))
    ensures Extends(s.rows, RunStep(content, s, t, outside, pick).rows)
  {
    hide Truthful, OnePerKey, AuditedOnce, Resolves, Candidate, ByCommit, KeyLocked;
    var x := s.pins[t];
    assert PinOk(content, s, t, x);
    hide PinOk;
    match x.phase
    case Reading | Network(_, _) | Looking(_) =>
      ReadingIsQuiet(content, s, t, outside, pick);
      QuietKeeps(content, s, t, RunStep(content, s, t, outside, pick).pins[t]);
    case Inserting(_) => InsertKeeps(content, s, t);
    case Auditing(_) => AuditKeeps(content, s, t);
    case Ending(_, _) => EndingKeeps(content, s, t, outside, pick);
    case _ =>
  }

  lemma FailKeeps(content: Content, s: State, t: RequestId)
    requires Inv(content, s) && t in s.pins && !Over(s.pins[t].phase)
    ensures Inv(content, RollBack(s, t))
  {
    QuietKeeps(content, s, t, s.pins[t].(phase := RolledBack, rows := Clean(), audit := None));
  }

  ghost predicate Extends(rows: map<RequestId, Version>, rows': map<RequestId, Version>) {
    forall id :: id in rows ==> id in rows' && rows'[id] == rows[id]
  }

  lemma StepKeeps(content: Content, s: State, a: Action)
    requires Inv(content, s)
    ensures Inv(content, Step(content, s, a)) && Extends(s.rows, Step(content, s, a).rows)
  {
    match a
    case Request(t, repo, ref) =>
      if t !in s.pins {
        QuietKeeps(content, s, t, Pin(repo, ref, Reading, Clean(), None));
      }
    case Run(t, outside, pick) => if t in s.pins { RunKeeps(content, s, t, outside, pick); }
    case Fail(t) => if t in s.pins && !Over(s.pins[t].phase) { FailKeeps(content, s, t); }
    case SetRepo(repo, to) =>
      var s' := Step(content, s, a);
      forall u | u in s'.pins ensures PinOk(content, s', u, s'.pins[u]) {
        assert PinOk(content, s, u, s.pins[u]);
      }
  }

  lemma {:induction false} Reachable(content: Content, s0: State, run: seq<Action>, i: nat)
    requires Init(s0) && i <= |run|
    ensures Inv(content, Exec(content, s0, run[..i])) && Inv(content, Exec(content, s0, run))
    ensures Extends(Exec(content, s0, run[..i]).rows, Exec(content, s0, run).rows)
    decreases |run|
  {
    hide Inv, Extends;
    if i == |run| {
      assert run[..i] == run;
      ExtendsItself(Exec(content, s0, run).rows);
      if run == [] {
        NothingPinned(content, s0);
      } else {
        Reachable(content, s0, run[..i - 1], i - 1);
        StepKeeps(content, Exec(content, s0, run[..i - 1]), run[i - 1]);
      }
    } else {
      var front := run[..|run| - 1];
      Reachable(content, s0, front, i);
      assert front[..i] == run[..i];
      StepKeeps(content, Exec(content, s0, front), run[|run| - 1]);
      ExtendsOn(Exec(content, s0, run[..i]).rows, Exec(content, s0, front).rows, Exec(content, s0, run).rows);
    }
  }

  lemma NothingPinned(content: Content, s: State)
    requires Init(s)
    ensures Inv(content, s)
  {
  }

  lemma ExtendsItself(rows: map<RequestId, Version>)
    ensures Extends(rows, rows)
  {
  }

  lemma ExtendsOn(a: map<RequestId, Version>, b: map<RequestId, Version>, c: map<RequestId, Version>)
    requires Extends(a, b) && Extends(b, c)
    ensures Extends(a, c)
  {
  }

  // ---- What a client can rely on ------------------------------------------------------------

  /** There is at most one row for a repository, commit and plan path, in every committed state. */
  lemma AtMostOneRow(content: Content, s0: State, run: seq<Action>, i: RequestId, j: RequestId)
    requires Init(s0)
    requires var rows := Exec(content, s0, run).rows; i in rows && j in rows && SameKey(rows[i], rows[j])
    ensures i == j
  {
    Reachable(content, s0, run, 0);
  }

  /** Two answers about one repository, commit and plan path name the same row, however the requests overlapped, and
      the row is what it was when first answered. At most one of them says it was created. */
  lemma RepeatsReturnThatRow(content: Content, s0: State, run: seq<Action>, i: nat, t: RequestId, u: RequestId)
    requires Init(s0) && i <= |run|
    requires var first, later := Exec(content, s0, run[..i]), Exec(content, s0, run);
      && t in first.pins && first.pins[t].phase.Responded? && first.pins[t].phase.id in first.rows
      && u in later.pins && later.pins[u].phase.Responded? && later.pins[u].phase.id in later.rows
      && SameKey(first.rows[first.pins[t].phase.id], later.rows[later.pins[u].phase.id])
    ensures var first, later := Exec(content, s0, run[..i]), Exec(content, s0, run);
      && first.pins[t].phase.id == later.pins[u].phase.id
      && first.rows[first.pins[t].phase.id] == later.rows[later.pins[u].phase.id]
      && (first.pins[t].phase.created && later.pins[u].phase.created ==> t == u)
  {
    hide Truthful;
    Reachable(content, s0, run, i);
    var first, later := Exec(content, s0, run[..i]), Exec(content, s0, run);
    assert PinOk(content, first, t, first.pins[t]) && PinOk(content, later, u, later.pins[u]);
  }

  /** Every answer names a committed row, of the repository it was asked about. */
  lemma AnswersNameRows(content: Content, s0: State, run: seq<Action>, t: RequestId)
    requires Init(s0)
    requires t in Exec(content, s0, run).pins && Exec(content, s0, run).pins[t].phase.Responded?
    ensures var s := Exec(content, s0, run);
      s.pins[t].phase.id in s.rows && s.rows[s.pins[t].phase.id].repo == s.pins[t].repo
  {
    hide Truthful;
    Reachable(content, s0, run, 0);
    assert PinOk(content, Exec(content, s0, run), t, Exec(content, s0, run).pins[t]);
  }

  /** There are as many audit rows as version rows: one each. */
  lemma AuditsCountRows(content: Content, s0: State, run: seq<Action>)
    requires Init(s0)
    ensures var s := Exec(content, s0, run); AuditedOnce(s) && |s.audits| == |s.rows|
  {
    hide Truthful, PinOk;
    Reachable(content, s0, run, 0);
    var s := Exec(content, s0, run);
    DistinctCount(s.audits, s.rows.Keys);
  }

  /** Another request's row for this key, committed after the first state and by the second. */
  ghost predicate CommittedBetween(before: State, after: State, id: RequestId, candidate: Version) {
    && id !in before.rows
    && id in after.rows && SameKey(after.rows[id], candidate)
    && id in after.pins && after.pins[id].phase == Responded(true, id)
  }

  /** A request that has resolved and read its plan and found no row fails on the unique key, instead of being answered
      the row that is there, if and only if another request for the key committed between its SELECT and its INSERT. */
  lemma LosesExactlyToARace(content: Content, s0: State, run: seq<Action>, j: nat, i: nat, t: RequestId,
                            candidate: Version)
    requires Init(s0) && j < i <= |run| && run[j].Run? && run[j].t == t
    requires var looking := Exec(content, s0, run[..j]);
      t in looking.pins && looking.pins[t].phase == Looking(candidate)
    requires var found := Exec(content, s0, run[..j + 1]);
      t in found.pins && found.pins[t].phase == Inserting(candidate)
    requires var now := Exec(content, s0, run[..i]);
      t in now.pins && now.pins[t].phase == Inserting(candidate)
    ensures var looking, now := Exec(content, s0, run[..j]), Exec(content, s0, run[..i]);
      (RunStep(content, now, t, None, None).pins[t].phase.RolledBack?)
      <==> (exists id :: id != t && CommittedBetween(looking, now, id, candidate))
  {
    hide Truthful, KeyLocked;
    var looking, now := Exec(content, s0, run[..j]), Exec(content, s0, run[..i]);
    Reachable(content, s0, run[..i], j);
    assert run[..i][..j] == run[..j];
    assert run[..j + 1][..j] == run[..j];
    NothingFound(content, looking, t, run[j], candidate);
    assert PinOk(content, now, t, now.pins[t]);
    assert RunStep(content, now, t, None, None).pins[t].phase.RolledBack? <==> ByCommit(now.rows, candidate) != {};
    if id :| id in ByCommit(now.rows, candidate) {
      assert id !in ByCommit(looking.rows, candidate);
      assert CommittedBetween(looking, now, id, candidate);
    }
    if id :| id != t && CommittedBetween(looking, now, id, candidate) {
      assert id in ByCommit(now.rows, candidate);
    }
  }

  /** The SELECT that sends a request on to its INSERT saw no row. */
  lemma NothingFound(content: Content, s: State, t: RequestId, a: Action, candidate: Version)
    requires t in s.pins && s.pins[t].phase == Looking(candidate) && a.Run? && a.t == t
    requires t in Step(content, s, a).pins && Step(content, s, a).pins[t].phase == Inserting(candidate)
    ensures ByCommit(s.rows, candidate) == {}
  {
  }

  /** The summary rebuilt from a stored row is what parsing the plan at that commit gives, up to the order of targets
      that tie, and so is the checksum. */
  lemma StoredSummaryIsThePlans(content: Content, s0: State, run: seq<Action>, id: RequestId, again: Jmx.PlanSummary)
    requires Init(s0) && id in Exec(content, s0, run).rows
    requires var row := Exec(content, s0, run).rows[id]; Resolves(content, row.repo, row.path, row.sha, again)
    ensures var row := Exec(content, s0, run).rows[id];
      && SummaryFrom(row.metadata).Ok? && SummaryFrom(row.metadata).value.Some?
      && SummaryFrom(row.metadata).value.value == again.(targets := SummaryFrom(row.metadata).value.value.targets)
      && (forall t :: t in SummaryFrom(row.metadata).value.value.targets <==> t in again.targets)
      && row.checksum == content(row.repo, row.sha, row.path).value.checksum
  {
    Reachable(content, s0, run, 0);
    var row := Exec(content, s0, run).rows[id];
    assert Truthful(content, row);
    var summary :| Resolves(content, row.repo, row.path, row.sha, summary)
                && row == Candidate(content, row.repo, row.path, row.sha, summary);
    SummaryComesBack(summary);
    var file := content(row.repo, row.sha, row.path).value;
    hide Jmx.Describes, SummaryFrom;
    Jmx.DescribesUpToTies(again, summary, Jmx.Seen(file.document), file.text);
  }

  // ---- One request at a time ----------------------------------------------------------------

  lemma OnlyRow(rows: map<RequestId, Version>, id: RequestId)
    requires OnePerKey(rows) && id in rows
    ensures ByCommit(rows, rows[id]) == {id}
  {
  }

  /** A row for this repository, commit and plan path. */
  predicate IsFor(v: Version, repo: RepoId, sha: Sha, path: string) {
    v.repo == repo && v.sha == sha && v.path == path
  }

  /** The metadata of a row, key by key. */
  ghost predicate Stores(m: Metadata, s: Jmx.PlanSummary) {
    && m.Keys == {"threadGroups", "transactionControllers", "timers", "variables", "dataFiles", "targets"}
    && m["threadGroups"] == Strings(s.threadGroups) && m["timers"] == Strings(s.timers)
    && m["transactionControllers"] == Strings(s.transactionControllers)
    && m["variables"] == Strings(s.variables) && m["dataFiles"] == Strings(s.dataFiles)
    && m["targets"].Objects? && |m["targets"].objects| == |s.targets|
    && forall i :: 0 <= i < |s.targets| ==>
         var t := s.targets[i];
         m["targets"].objects[i] == map["scheme" := Text(t.scheme), "host" := Text(t.host), "port" := Port(t.port)]
  }

  lemma MetadataStores(s: Jmx.PlanSummary)
    ensures Stores(SummaryAsMetadata(s), s)
  {
    KeysDiffer();
  }

  /** The row says what the plan file at that commit holds. */
  ghost predicate Holds(v: Version, file: PlanFile) {
    && v.checksum == file.checksum
    && exists summary :: Jmx.Summarises(summary, file.document, file.text) && Stores(v.metadata, summary)
  }

  /** The answered row is for that commit and the only one that is. It is new exactly when there was none, and then it
      is the one row added and says what the plan file holds. */
  ghost predicate PinsRow(content: Content, before: map<RequestId, Version>, after: map<RequestId, Version>,
                          t: RequestId, created: bool, id: RequestId, repo: RepoId, sha: Sha, path: string)
  {
    && id in after && IsFor(after[id], repo, sha, path)
    && (forall other :: other in after && IsFor(after[other], repo, sha, path) ==> other == id)
    && (created <==> forall other :: other in before ==> !IsFor(before[other], repo, sha, path))
    && (created ==> id == t && after == before[t := after[t]])
    && (created ==> content(repo, sha, path).Some? && Holds(after[t], content(repo, sha, path).value))
    && (!created ==> after == before)
  }

  lemma RowPinned(content: Content, before: map<RequestId, Version>, after: map<RequestId, Version>, t: RequestId,
                  created: bool, id: RequestId, candidate: Version)
    requires id in after && SameKey(after[id], candidate) && ByCommit(after, after[id]) == {id}
    requires created <==> ByCommit(before, candidate) == {}
    requires if created then id == t && after == before[t := candidate] else after == before
    requires Truthful(content, candidate)
    ensures PinsRow(content, before, after, t, created, id, candidate.repo, candidate.sha, candidate.path)
  {
    TruthfulHolds(content, candidate);
    hide Truthful, Holds;
    OnlyRowFor(after, id, candidate);
    NoRowFor(before, candidate);
    hide ByCommit, SameKey;
  }

  lemma OnlyRowFor(after: map<RequestId, Version>, id: RequestId, candidate: Version)
    requires id in after && SameKey(after[id], candidate) && ByCommit(after, after[id]) == {id}
    ensures IsFor(after[id], candidate.repo, candidate.sha, candidate.path)
    ensures forall other ::
      other in after && IsFor(after[other], candidate.repo, candidate.sha, candidate.path) ==> other == id
  {
    forall other | other in after && IsFor(after[other], candidate.repo, candidate.sha, candidate.path)
      ensures other == id {
      assert other in ByCommit(after, after[id]);
    }
  }

  lemma NoRowFor(before: map<RequestId, Version>, candidate: Version)
    ensures ByCommit(before, candidate) == {} <==>
      forall other :: other in before ==> !IsFor(before[other], candidate.repo, candidate.sha, candidate.path)
  {
    forall other | other in before && IsFor(before[other], candidate.repo, candidate.sha, candidate.path)
      ensures other in ByCommit(before, candidate) {
    }
    if ByCommit(before, candidate) != {} {
      var other :| other in ByCommit(before, candidate);
      assert IsFor(before[other], candidate.repo, candidate.sha, candidate.path);
    }
  }

  lemma TruthfulHolds(content: Content, v: Version)
    requires Truthful(content, v)
    ensures content(v.repo, v.sha, v.path).Some? && Holds(v, content(v.repo, v.sha, v.path).value)
  {
    var summary :| Resolves(content, v.repo, v.path, v.sha, summary)
                && v == Candidate(content, v.repo, v.path, v.sha, summary);
    var file := content(v.repo, v.sha, v.path).value;
    Jmx.DescribesDocument(summary, file.document, file.text);
    MetadataStores(summary);
    hide Jmx.Describes, Jmx.Summarises, Stores, SummaryAsMetadata;
  }

  datatype Failure = NoSuchRepo | Unreachable | NoUsablePlan

  class PinTables {
    var repos: map<RepoId, Repo>
    var rows: map<RequestId, Version>
    var audits: seq<RequestId>

    constructor (repos: map<RepoId, Repo>)
      ensures Valid() && this.repos == repos && rows == map[]
    {
      this.repos, rows, audits := repos, map[], [];
    }

    ghost predicate Valid()
      reads this
    {
      OnePerKey(rows) && AuditedOnce(State(repos, rows, audits, map[]))
    }

    method FindByCommit(candidate: Version) returns (row: Option<RequestId>)
      ensures if row.Some? then row.value in ByCommit(rows, candidate) else ByCommit(rows, candidate) == {}
    {
      var found := ByCommit(rows, candidate);
      if found == {} {
        return None;
      }
      var id :| id in found;
      return Some(id);
    }

    /** The network half: the ref at this moment, the plan at that commit, its summary. */
    method ResolveForPin(repo: RepoId, path: string, ref: string, resolve: (RepoId, string) -> Option<Sha>,
                         content: Content)
      returns (candidate: Result<Version, Failure>)
      ensures var sha := resolve(repo, ref);
        if sha.None? then candidate == Err(Unreachable)
        else if content(repo, sha.value, path).None? then candidate == Err(NoUsablePlan)
        else (candidate.Ok? && candidate.value.sha == sha.value && candidate.value.path == path
              && candidate.value.repo == repo)
      ensures candidate.Ok? ==> Truthful(content, candidate.value)
    {
      var sha := resolve(repo, ref);
      if sha.None? {
        return Err(Unreachable);
      }
      var file := content(repo, sha.value, path);
      if file.None? {
        return Err(NoUsablePlan);
      }
      var summary := Jmx.ParsePlan(file.value.text, file.value.document);
      hide Jmx.Describes;
      candidate := Ok(Version(repo, sha.value, path, file.value.checksum, SummaryAsMetadata(summary)));
      assert Resolves(content, repo, path, sha.value, summary);
      assert candidate.value == Candidate(content, repo, path, sha.value, summary);
    }

    /** The second transaction: what is pinned already, or one row and its audit row. */
    method Record(t: RequestId, candidate: Version) returns (created: bool, id: RequestId)
      requires Valid() && t !in rows
      modifies this`rows, this`audits
      ensures Valid() && id in rows && SameKey(rows[id], candidate) && ByCommit(rows, rows[id]) == {id}
      ensures created <==> ByCommit(old(rows), candidate) == {}
      ensures if created then id == t && rows == old(rows)[t := candidate] && audits == old(audits) + [t]
        else rows == old(rows) && audits == old(audits)
    {
      var existing := FindByCommit(candidate);
      if existing.Some? {
        OnlyRow(rows, existing.value);
        return false, existing.value;
      }
      NewKeyAlone(rows, t, candidate);
      rows := rows[t := candidate];
      audits := audits + [t];
      OnlyRow(rows, t);
      return true, t;
    }

    /** Afterwards the key has exactly the row that was answered: the one it had, untouched, or the one just made, with
        its one audit row. A request that fails leaves the tables alone. */
    method PinVersion(t: RequestId, repo: RepoId, ref: Option<string>, resolve: (RepoId, string) -> Option<Sha>,
                      content: Content)
      returns (answer: Result<(bool, RequestId), Failure>)
      requires Valid() && t !in rows
      modifies this`rows, this`audits
      ensures Valid()
      ensures answer.Err? ==> rows == old(rows) && audits == old(audits)
      ensures answer == Err(NoSuchRepo) <==> repo !in repos
      ensures repo in repos && ref.Some? && ref.value != "" ==>
        Pins(old(rows), answer, t, repo, resolve(repo, ref.value), content)
      ensures repo in repos && (ref.None? || ref.value == "") ==>
        Pins(old(rows), answer, t, repo, resolve(repo, repos[repo].defaultRef), content)
      ensures answer.Ok? && !answer.value.0 ==> rows == old(rows) && audits == old(audits)
      ensures answer.Ok? && answer.value.0
        ==> answer.value.1 == t && t in rows && rows == old(rows)[t := rows[t]] && audits == old(audits) + [t]
    {
      if repo !in repos {
        return Err(NoSuchRepo);
      }
      var resolved := ResolveForPin(repo, repos[repo].planPath, RefOr(ref, repos[repo].defaultRef), resolve, content);
      hide Truthful, RefOr, OnePerKey, AuditedOnce, PinsRow;
      if resolved.Err? {
        return Err(resolved.error);
      }
      var created, id := Record(t, resolved.value);
      answer := Ok((created, id));
      RowPinned(content, old(rows), rows, t, created, id, resolved.value);
    }

    /** The answer to a request whose ref names this commit, or none: which error, or which row. */
    ghost predicate Pins(before: map<RequestId, Version>, answer: Result<(bool, RequestId), Failure>, t: RequestId,
                         repo: RepoId, sha: Option<Sha>, content: Content)
      requires repo in repos
      reads this
    {
      if sha.None? then answer == Err(Unreachable)
      else if content(repo, sha.value, repos[repo].planPath).None? then answer == Err(NoUsablePlan)
      else
        && answer.Ok?
        && PinsRow(content, before, rows, t, answer.value.0, answer.value.1, repo, sha.value, repos[repo].planPath)
    }
  }
}
