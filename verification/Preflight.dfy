/** The admission report: six checks, all run, all reported. */
module Preflight {
  import opened Wrappers
  import opened Orders
  import opened StringOrder
  import opened Text
  import opened Jmx
  import VariableScan
  import TargetPolicy

  type Access = string
  type Sha = string

  /** What reaching out to Git answers; a ref or a fetch may fail, and the content at a commit is fixed. */
  datatype Git = Git(resolve: (Access, string) -> Option<Sha>, plan: (Access, Sha, string) -> Option<PlanSummary>)

  datatype PlanInput = PlanInput(repoName: string, access: Access, planPath: string, ref: string, virtualUsers: nat)

  datatype PreflightInput = PreflightInput(
    requestedUsers: nat, plans: seq<PlanInput>, allowlist: seq<string>,
    variables: map<string, string>, freeCapacity: Option<int>)

  datatype Status = Pass | Fail | Skipped

  datatype Code = TestStructure | ScriptRef | PlanParses | VariablesPresent | TargetAllowed | Capacity

  /** `named` are the repositories, variables or hosts the detail text lists. */
  datatype Check = Check(code: Code, status: Status, named: seq<string>)

  datatype Report = Report(ok: bool, checks: seq<Check>)

  function Users(plans: seq<PlanInput>): nat {
    if plans == [] then 0 else Users(plans[..|plans| - 1]) + plans[|plans| - 1].virtualUsers
  }

  function Resolution(git: Git, p: PlanInput): Option<Sha> {
    git.resolve(p.access, p.ref)
  }

  /** `resolved` is keyed by repository name: of the plans that share one, the last to resolve decides. */
  function Resolved(git: Git, plans: seq<PlanInput>): map<string, Sha> {
    if plans == [] then map[] else
    var p := plans[|plans| - 1];
    var earlier := Resolved(git, plans[..|plans| - 1]);
    match Resolution(git, p)
    case Some(sha) => earlier[p.repoName := sha]
    case None => earlier
  }

  function Unresolved(git: Git, plans: seq<PlanInput>): seq<string> {
    if plans == [] then [] else
    var p := plans[|plans| - 1];
    Unresolved(git, plans[..|plans| - 1]) + if Resolution(git, p).None? then [p.repoName] else []
  }

  /** The plan as fetched at the commit recorded for its repository's name. */
  function Fetched(git: Git, resolved: map<string, Sha>, p: PlanInput): Option<PlanSummary> {
    if p.repoName in resolved then git.plan(p.access, resolved[p.repoName], p.planPath) else None
  }

  function Summaries(git: Git, resolved: map<string, Sha>, plans: seq<PlanInput>): seq<PlanSummary> {
    if plans == [] then [] else
    var p := plans[|plans| - 1];
    Summaries(git, resolved, plans[..|plans| - 1])
      + match Fetched(git, resolved, p) case Some(s) => [s] case None => []
  }

  function ParseFailures(git: Git, resolved: map<string, Sha>, plans: seq<PlanInput>): seq<string> {
    if plans == [] then [] else
    var p := plans[|plans| - 1];
    ParseFailures(git, resolved, plans[..|plans| - 1])
      + if p.repoName in resolved && Fetched(git, resolved, p).None? then [p.repoName] else []
  }

  /** The variable name when the whole host is one reference. */
  function WholeVariable(host: string): Option<string> {
    if |host| >= 3 && host[..2] == "${" && host[|host| - 1] == '}' && VariableScan.Identifier(host[2..|host| - 1])
    then Some(host[2..|host| - 1])
    else None
  }

  /** The host to judge. None, for a reference that is not the whole host or not stored, counts against the test. */
  function ResolveHost(host: string, variables: map<string, string>): Option<string> {
    match WholeVariable(Strip(host))
    case None => if Mentions(host, "${") then None else Some(host)
    case Some(name) => if name in variables then Some(variables[name]) else None
  }

  /** The host, without any padding, is one reference to the variable of this name. */
  ghost predicate IsReference(host: string, name: string) {
    VariableScan.IdentifierText(name) && Strip(host) == "${" + name + "}"
  }

  /** A reference reaches what the variable holds, if it is stored. Anything else reaches itself, but nothing that holds
      a reference and more. */
  ghost predicate Reaches(inputs: PreflightInput, host: string) {
    if exists name :: IsReference(host, name) then
      exists name :: IsReference(host, name) && name in inputs.variables
                     && TargetPolicy.Permits(inputs.allowlist, inputs.variables[name])
    else !HasDollarBrace(host) && TargetPolicy.Permits(inputs.allowlist, host)
  }

  lemma WholeIsReference(host: string, name: string)
    ensures WholeVariable(Strip(host)) == Some(name) <==> IsReference(host, name)
  {
    hide Strip;
    var h := Strip(host);
    VariableScan.IdentifierIsText(name);
    var whole := "${" + name + "}";
    assert whole[..2] == "${" && whole[2..|whole| - 1] == name && whole[|whole| - 1] == '}';
    if WholeVariable(h) == Some(name) {
      assert h == h[..2] + h[2..|h| - 1] + [h[|h| - 1]];
    }
  }

  lemma ReachesIs(inputs: PreflightInput, host: string, whole: Option<string>)
    requires forall name :: whole == Some(name) <==> IsReference(host, name)
    ensures Reaches(inputs, host) <==>
      match whole
      case None => !HasDollarBrace(host) && TargetPolicy.Permits(inputs.allowlist, host)
      case Some(name) => name in inputs.variables && TargetPolicy.Permits(inputs.allowlist, inputs.variables[name])
  {
    hide IsReference, HasDollarBrace, TargetPolicy.Permits;
    if whole.Some? {
      assert IsReference(host, whole.value);
    }
  }

  lemma AllowedExactly(inputs: PreflightInput, host: string)
    ensures HostAllowed(inputs, host) <==> Reaches(inputs, host)
  {
    hide IsReference, Strip, WholeVariable, Mentions, HasDollarBrace, TargetPolicy.Permits, Reaches;
    var whole := WholeVariable(Strip(host));
    forall name ensures whole == Some(name) <==> IsReference(host, name) {
      WholeIsReference(host, name);
    }
    MentionsIs(host);
    ReachesIs(inputs, host, whole);
  }

  /** A variable is judged by what it holds, and by nothing if it holds nothing. */
  lemma ReferenceReaches(inputs: PreflightInput, host: string, name: string)
    requires VariableScan.IdentifierText(name) && Strip(host) == "${" + name + "}"
    ensures HostAllowed(inputs, host) <==>
      name in inputs.variables && TargetPolicy.Permits(inputs.allowlist, inputs.variables[name])
  {
    AllowedExactly(inputs, host);
    assert IsReference(host, name);
    forall other | IsReference(host, other) ensures other == name {
      WholeIsReference(host, other);
      WholeIsReference(host, name);
    }
    hide HostAllowed, TargetPolicy.Permits, Strip;
  }

  method StructureCheck(inputs: PreflightInput) returns (check: Check)
    ensures check == Check(TestStructure, PassIf(Sums(inputs)), [])
  {
    var declared := 0;
    for i := 0 to |inputs.plans|
      invariant declared == Users(inputs.plans[..i])
    {
      assert inputs.plans[..i + 1][..i] == inputs.plans[..i];
      declared := declared + inputs.plans[i].virtualUsers;
    }
    assert inputs.plans[..|inputs.plans|] == inputs.plans;
    check := Check(TestStructure, if inputs.plans != [] && declared == inputs.requestedUsers then Pass else Fail, []);
  }

  /** The pool can be used and has room for every user the test asks for. */
  predicate Fits(inputs: PreflightInput) {
    inputs.freeCapacity.Some? && inputs.requestedUsers <= inputs.freeCapacity.value
  }

  function CapacityCheck(inputs: PreflightInput): Check {
    Check(Capacity, if Fits(inputs) then Pass else Fail, [])
  }

  function Referenced(summaries: seq<PlanSummary>): set<string> {
    set s, name | s in summaries && name in s.variables :: name
  }

  function Hosts(summaries: seq<PlanSummary>): set<string> {
    set s, t | s in summaries && t in s.targets :: t.host
  }

  method VariablesCheck(summaries: seq<PlanSummary>, inputs: PreflightInput, blocked: bool) returns (check: Check)
    ensures check.code == VariablesPresent
    ensures check.status == if blocked then Skipped else PassIf(VariablesStored(inputs, summaries))
    ensures !blocked ==> check.named == SortedStrings(Referenced(summaries) - inputs.variables.Keys)
  {
    if blocked {
      return Check(VariablesPresent, Skipped, []);
    }
    var missing := Referenced(summaries) - inputs.variables.Keys;
    var listed := SortStrings(missing);
    assert forall n :: n in Referenced(summaries) && n !in inputs.variables.Keys ==> n in missing;
    return Check(VariablesPresent, if missing == {} then Pass else Fail, listed);
  }

  predicate HostAllowed(inputs: PreflightInput, host: string) {
    match ResolveHost(host, inputs.variables)
    case None => false
    case Some(resolved) => TargetPolicy.Permits(inputs.allowlist, resolved)
  }

  method CheckHost(inputs: PreflightInput, host: string) returns (resolves: bool, allowed: bool)
    ensures allowed <==> HostAllowed(inputs, host)
    ensures allowed ==> resolves
  {
    var resolved := ResolveHost(host, inputs.variables);
    resolves, allowed := resolved.Some?, false;
    if resolves {
      allowed := TargetPolicy.MatchesAllowlist(resolved.value, inputs.allowlist);
    }
  }

  /** Every host is judged; the loop does not stop at the first that fails. */
  method JudgeHosts(inputs: PreflightInput, hosts: seq<string>) returns (named: seq<string>)
    ensures forall h :: h in named <==> h in hosts && !HostAllowed(inputs, h)
    ensures forall h :: h in named <==> h in hosts && !Reaches(inputs, h)
  {
    hide HostAllowed, Reaches;
    var rejected, unresolved: seq<string> := [], [];
    for i := 0 to |hosts|
      invariant forall h :: h in rejected || h in unresolved <==> h in hosts[..i] && !HostAllowed(inputs, h)
    {
      var resolves, allowed := CheckHost(inputs, hosts[i]);
      if !resolves {
        unresolved := unresolved + [hosts[i]];
      } else if !allowed {
        rejected := rejected + [hosts[i]];
      }
      assert hosts[..i + 1] == hosts[..i] + [hosts[i]];
    }
    assert hosts[..|hosts|] == hosts;
    named := rejected + unresolved;
    forall h ensures HostAllowed(inputs, h) <==> Reaches(inputs, h) {
      AllowedExactly(inputs, h);
    }
  }

  method TargetsCheck(summaries: seq<PlanSummary>, inputs: PreflightInput, blocked: bool) returns (check: Check)
    ensures check.code == TargetAllowed
    ensures check.status == if blocked then Skipped
      else PassIf(HostsAllowed(inputs, summaries))
    ensures !blocked ==> forall h :: h in check.named <==> h in Hosts(summaries) && !HostAllowed(inputs, h)
  {
    if blocked {
      return Check(TargetAllowed, Skipped, []);
    }
    var hosts := SortStrings(Hosts(summaries));
    assert forall h :: h in hosts <==> h in Hosts(summaries);
    var named := JudgeHosts(inputs, hosts);
    assert hosts != [] ==> hosts[0] in Hosts(summaries);
    assert named != [] ==> named[0] in named;
    return Check(TargetAllowed, if hosts == [] || named != [] then Fail else Pass, named);
  }

  // ---- The report ---------------------------------------------------------------------------

  ghost predicate AllResolve(git: Git, plans: seq<PlanInput>) {
    forall p :: p in plans ==> Resolution(git, p).Some?
  }

  ghost predicate AllParse(git: Git, plans: seq<PlanInput>, resolved: map<string, Sha>) {
    forall p :: p in plans ==> Fetched(git, resolved, p).Some?
  }

  ghost predicate VariablesStored(inputs: PreflightInput, summaries: seq<PlanSummary>) {
    Referenced(summaries) <= inputs.variables.Keys
  }

  ghost predicate HostsAllowed(inputs: PreflightInput, summaries: seq<PlanSummary>) {
    Hosts(summaries) != {} && forall h :: h in Hosts(summaries) ==> HostAllowed(inputs, h)
  }

  ghost predicate Sums(inputs: PreflightInput) {
    inputs.plans != [] && Users(inputs.plans) == inputs.requestedUsers
  }

  ghost predicate Readable(git: Git, plans: seq<PlanInput>) {
    AllResolve(git, plans) && AllParse(git, plans, Resolved(git, plans))
  }

  ghost function PassIf(good: bool): Status {
    if good then Pass else Fail
  }

  /** The two checks that need every plan are skipped when one could not be read. */
  ghost function SixStatuses(sums: bool, refs: bool, read: bool, stored: bool, allowed: bool,
                             capacity: bool): seq<Status> {
    [ PassIf(sums),
      PassIf(refs),
      if refs then PassIf(read) else Skipped,
      if read then PassIf(stored) else Skipped,
      if read then PassIf(allowed) else Skipped,
      PassIf(capacity) ]
  }

  ghost function Statuses(git: Git, inputs: PreflightInput): seq<Status> {
    var plans := inputs.plans;
    var summaries := Summaries(git, Resolved(git, plans), plans);
    SixStatuses(Sums(inputs), AllResolve(git, plans), Readable(git, plans),
                VariablesStored(inputs, summaries), HostsAllowed(inputs, summaries), Fits(inputs))
  }

  ghost predicate AllPass(statuses: seq<Status>) {
    forall i :: 0 <= i < |statuses| ==> statuses[i] == Pass
  }

  lemma AllSixPass(sums: bool, refs: bool, read: bool, stored: bool, allowed: bool, capacity: bool)
    requires read ==> refs
    ensures AllPass(SixStatuses(sums, refs, read, stored, allowed, capacity))
      <==> sums && read && stored && allowed && capacity
  {
    var six := SixStatuses(sums, refs, read, stored, allowed, capacity);
    assert AllPass(six) ==> six[0] == six[1] == six[2] == six[3] == six[4] == six[5] == Pass;
  }

  const CODES: seq<Code> := [TestStructure, ScriptRef, PlanParses, VariablesPresent, TargetAllowed, Capacity]

  lemma {:induction false} UnresolvedExactly(git: Git, plans: seq<PlanInput>)
    ensures Unresolved(git, plans) == [] <==> AllResolve(git, plans)
    ensures forall p :: p in plans && Resolution(git, p).Some? ==> p.repoName in Resolved(git, plans)
  {
    if plans != [] {
      UnresolvedExactly(git, plans[..|plans| - 1]);
      assert plans == plans[..|plans| - 1] + [plans[|plans| - 1]];
    }
  }

  lemma {:induction false} FailuresExactly(git: Git, resolved: map<string, Sha>, plans: seq<PlanInput>)
    requires forall p :: p in plans ==> p.repoName in resolved
    ensures ParseFailures(git, resolved, plans) == [] <==> AllParse(git, plans, resolved)
  {
    hide Fetched;
    if plans != [] {
      var front, last := plans[..|plans| - 1], plans[|plans| - 1];
      assert plans == front + [last];
      assert forall p :: p in front ==> p in plans;
      FailuresExactly(git, resolved, front);
      assert last in plans;
    }
  }

  method ResolveAll(git: Git, plans: seq<PlanInput>) returns (resolved: map<string, Sha>, unresolved: seq<string>)
    ensures resolved == Resolved(git, plans) && unresolved == Unresolved(git, plans)
  {
    resolved, unresolved := map[], [];
    for i := 0 to |plans|
      invariant resolved == Resolved(git, plans[..i]) && unresolved == Unresolved(git, plans[..i])
    {
      assert plans[..i + 1][..i] == plans[..i];
      match Resolution(git, plans[i])
      case None => unresolved := unresolved + [plans[i].repoName];
      case Some(sha) => resolved := resolved[plans[i].repoName := sha];
    }
    assert plans[..|plans|] == plans;
  }

  method ReadAll(git: Git, resolved: map<string, Sha>, plans: seq<PlanInput>)
    returns (summaries: seq<PlanSummary>, failures: seq<string>)
    ensures summaries == Summaries(git, resolved, plans) && failures == ParseFailures(git, resolved, plans)
  {
    summaries, failures := [], [];
    for i := 0 to |plans|
      invariant summaries == Summaries(git, resolved, plans[..i])
      invariant failures == ParseFailures(git, resolved, plans[..i])
    {
      assert plans[..i + 1][..i] == plans[..i];
      if plans[i].repoName in resolved {
        match git.plan(plans[i].access, resolved[plans[i].repoName], plans[i].planPath)
        case None => failures := failures + [plans[i].repoName];
        case Some(summary) => summaries := summaries + [summary];
      }
    }
    assert plans[..|plans|] == plans;
  }

  lemma BlockedExactly(git: Git, plans: seq<PlanInput>)
    ensures Unresolved(git, plans) == [] <==> AllResolve(git, plans)
    ensures Unresolved(git, plans) == [] && ParseFailures(git, Resolved(git, plans), plans) == []
      <==> Readable(git, plans)
  {
    UnresolvedExactly(git, plans);
    if AllResolve(git, plans) {
      FailuresExactly(git, Resolved(git, plans), plans);
    }
  }

  function StatusList(checks: seq<Check>): seq<Status> {
    seq(|checks|, i requires 0 <= i < |checks| => checks[i].status)
  }

  function CodeList(checks: seq<Check>): seq<Code> {
    seq(|checks|, i requires 0 <= i < |checks| => checks[i].code)
  }

  function Assemble(a: Check, b: Check, c: Check, d: Check, e: Check, f: Check): (report: Report)
    ensures CodeList(report.checks) == [a.code, b.code, c.code, d.code, e.code, f.code]
    ensures StatusList(report.checks) == [a.status, b.status, c.status, d.status, e.status, f.status]
    ensures report.ok <==> AllPass(StatusList(report.checks))
    ensures report.checks == [a, b, c, d, e, f]
  {
    var checks := [a, b, c, d, e, f];
    assert forall i :: 0 <= i < |checks| ==> checks[i].status == StatusList(checks)[i];
    Report(forall c :: c in checks ==> c.status == Pass, checks)
  }

  // ---- What the report says -----------------------------------------------------------------

  /** Of the plans with this repository's name, `j` is the last whose ref resolves, and this is its commit. */
  ghost predicate RecordedAt(git: Git, plans: seq<PlanInput>, name: string, j: int, sha: Sha) {
    && 0 <= j < |plans| && plans[j].repoName == name && git.resolve(plans[j].access, plans[j].ref) == Some(sha)
    && forall k :: j < k < |plans| && plans[k].repoName == name ==> git.resolve(plans[k].access, plans[k].ref).None?
  }

  ghost predicate Recorded(git: Git, plans: seq<PlanInput>, name: string, sha: Sha) {
    exists j :: RecordedAt(git, plans, name, j, sha)
  }

  /** The plan is read at the commit recorded for its repository's name. */
  ghost predicate ReadAs(git: Git, plans: seq<PlanInput>, p: PlanInput, s: PlanSummary) {
    exists sha :: Recorded(git, plans, p.repoName, sha) && git.plan(p.access, sha, p.planPath) == Some(s)
  }

  lemma {:induction false} RecordedExactly(git: Git, plans: seq<PlanInput>, name: string, sha: Sha)
    ensures (name in Resolved(git, plans) && Resolved(git, plans)[name] == sha)
      <==> Recorded(git, plans, name, sha)
  {
    if plans != [] {
      var n := |plans| - 1;
      var front := plans[..n];
      RecordedExactly(git, front, name, sha);
      if plans[n].repoName == name && Resolution(git, plans[n]).Some? {
        assert RecordedAt(git, plans, name, n, Resolution(git, plans[n]).value);
        if j :| RecordedAt(git, plans, name, j, sha) {
          assert j == n;
        }
      } else {
        RecordedBefore(git, plans, name, sha);
      }
    }
  }

  lemma RecordedBefore(git: Git, plans: seq<PlanInput>, name: string, sha: Sha)
    requires plans != []
    requires plans[|plans| - 1].repoName == name ==> Resolution(git, plans[|plans| - 1]).None?
    ensures Recorded(git, plans[..|plans| - 1], name, sha) <==> Recorded(git, plans, name, sha)
  {
    var front := plans[..|plans| - 1];
    assert forall k :: 0 <= k < |front| ==> front[k] == plans[k];
    if j :| RecordedAt(git, front, name, j, sha) {
      assert RecordedAt(git, plans, name, j, sha);
    }
    if j :| RecordedAt(git, plans, name, j, sha) {
      assert RecordedAt(git, front, name, j, sha);
    }
  }

  lemma ReadExactly(git: Git, plans: seq<PlanInput>, p: PlanInput, s: PlanSummary)
    ensures Fetched(git, Resolved(git, plans), p) == Some(s) <==> ReadAs(git, plans, p, s)
  {
    forall sha ensures Recorded(git, plans, p.repoName, sha)
      <==> p.repoName in Resolved(git, plans) && Resolved(git, plans)[p.repoName] == sha {
      RecordedExactly(git, plans, p.repoName, sha);
    }
    hide Recorded, Resolved;
  }

  ghost predicate EveryRefResolves(git: Git, plans: seq<PlanInput>) {
    forall p :: p in plans ==> git.resolve(p.access, p.ref).Some?
  }

  ghost predicate EveryPlanReads(git: Git, plans: seq<PlanInput>) {
    EveryRefResolves(git, plans) && forall p :: p in plans ==> exists s :: ReadAs(git, plans, p, s)
  }

  ghost predicate VariableOf(git: Git, plans: seq<PlanInput>, name: string) {
    exists p, s :: p in plans && ReadAs(git, plans, p, s) && name in s.variables
  }

  ghost predicate HostIn(s: PlanSummary, host: string) {
    exists t :: t in s.targets && t.host == host
  }

  ghost predicate HostOfPlans(git: Git, plans: seq<PlanInput>, host: string) {
    exists p, s :: p in plans && ReadAs(git, plans, p, s) && HostIn(s, host)
  }

  ghost predicate VariablesAreStored(inputs: PreflightInput, git: Git) {
    forall name :: VariableOf(git, inputs.plans, name) ==> name in inputs.variables
  }

  ghost predicate HostsAreReached(inputs: PreflightInput, git: Git) {
    && (exists host :: HostOfPlans(git, inputs.plans, host))
    && (forall host :: HostOfPlans(git, inputs.plans, host) ==> Reaches(inputs, host))
  }

  ghost predicate PassedIf(check: Check, good: bool) {
    check.status == if good then Pass else Fail
  }

  /** The six checks in their order, each with its status; what needs the refs or the plans is skipped without them. */
  ghost predicate Says(inputs: PreflightInput, git: Git, report: Report) {
    var (plans, checks) := (inputs.plans, report.checks);
    var (resolved, read) := (EveryRefResolves(git, plans), EveryPlanReads(git, plans));
    && |checks| == 6
    && checks[0].code == TestStructure && checks[1].code == ScriptRef && checks[2].code == PlanParses
    && checks[3].code == VariablesPresent && checks[4].code == TargetAllowed && checks[5].code == Capacity
    && PassedIf(checks[0], plans != [] && Users(plans) == inputs.requestedUsers)
    && PassedIf(checks[1], resolved)
    && (if resolved then PassedIf(checks[2], read) else checks[2].status == Skipped)
    && (if read then PassedIf(checks[3], VariablesAreStored(inputs, git)) else checks[3].status == Skipped)
    && (if read then PassedIf(checks[4], HostsAreReached(inputs, git)) else checks[4].status == Skipped)
    && PassedIf(checks[5], inputs.freeCapacity.Some? && inputs.requestedUsers <= inputs.freeCapacity.value)
    && (report.ok <==> forall i :: 0 <= i < 6 ==> checks[i].status == Pass)
  }

  ghost predicate NamesRefs(inputs: PreflightInput, git: Git, named: seq<string>) {
    forall n :: n in named <==>
      exists p :: p in inputs.plans && p.repoName == n && git.resolve(p.access, p.ref).None?
  }

  ghost predicate NamesVariables(inputs: PreflightInput, git: Git, named: seq<string>) {
    && Strictly(StringBefore, named)
    && forall n :: n in named <==> VariableOf(git, inputs.plans, n) && n !in inputs.variables
  }

  ghost predicate NamesHosts(inputs: PreflightInput, git: Git, named: seq<string>) {
    forall h :: h in named <==> HostOfPlans(git, inputs.plans, h) && !Reaches(inputs, h)
  }

  /** And what they name: refs that do not resolve, variables that are not stored, hosts that may not be reached. */
  ghost predicate SaysWhich(inputs: PreflightInput, git: Git, report: Report) {
    && |report.checks| == 6
    && NamesRefs(inputs, git, report.checks[1].named)
    && (EveryPlanReads(git, inputs.plans) ==> NamesVariables(inputs, git, report.checks[3].named))
    && (EveryPlanReads(git, inputs.plans) ==> NamesHosts(inputs, git, report.checks[4].named))
  }

  lemma MembersRead(git: Git, plans: seq<PlanInput>)
    ensures var summaries := Summaries(git, Resolved(git, plans), plans);
      && (AllParse(git, plans, Resolved(git, plans)) <==>
            forall p :: p in plans ==> exists s :: ReadAs(git, plans, p, s))
      && (forall name :: name in Referenced(summaries) <==> VariableOf(git, plans, name))
      && (forall host :: host in Hosts(summaries) <==> HostOfPlans(git, plans, host))
  {
    var resolved := Resolved(git, plans);
    var summaries := Summaries(git, resolved, plans);
    forall p, s ensures Fetched(git, resolved, p) == Some(s) <==> ReadAs(git, plans, p, s) {
      ReadExactly(git, plans, p, s);
    }
    forall s ensures s in summaries <==> exists p :: p in plans && ReadAs(git, plans, p, s) {
      SummariesAreFetched(git, resolved, plans, s);
    }
    hide ReadAs, Resolved, Summaries, Fetched;
    forall p | p in plans ensures Fetched(git, resolved, p).Some? <==> exists s :: ReadAs(git, plans, p, s) {
      if Fetched(git, resolved, p).Some? {
        assert ReadAs(git, plans, p, Fetched(git, resolved, p).value);
      }
    }
    forall host ensures host in Hosts(summaries) <==> HostOfPlans(git, plans, host) {
      if host in Hosts(summaries) {
        var s, t :| s in summaries && t in s.targets && t.host == host;
        assert HostIn(s, host);
      }
    }
  }

  lemma ConditionsAre(inputs: PreflightInput, git: Git)
    ensures var plans := inputs.plans; var summaries := Summaries(git, Resolved(git, plans), plans);
      && (EveryRefResolves(git, plans) <==> AllResolve(git, plans))
      && (EveryPlanReads(git, plans) <==> Readable(git, plans))
      && (VariablesAreStored(inputs, git) <==> VariablesStored(inputs, summaries))
      && (HostsAreReached(inputs, git) <==> HostsAllowed(inputs, summaries))
  {
    var plans := inputs.plans;
    var summaries := Summaries(git, Resolved(git, plans), plans);
    MembersRead(git, plans);
    forall host ensures HostAllowed(inputs, host) <==> Reaches(inputs, host) {
      AllowedExactly(inputs, host);
    }
    hide Resolved, Summaries, Referenced, Hosts, HostAllowed, Reaches, VariableOf, HostOfPlans, ReadAs, AllParse;
    if Hosts(summaries) != {} {
      var h :| h in Hosts(summaries);
    }
  }

  lemma StatusesSay(inputs: PreflightInput, git: Git, report: Report)
    requires CodeList(report.checks) == CODES && StatusList(report.checks) == Statuses(git, inputs)
    requires report.ok <==> AllPass(Statuses(git, inputs))
    ensures Says(inputs, git, report)
  {
    var checks := report.checks;
    ConditionsAre(inputs, git);
    hide Summaries, Resolved, EveryRefResolves, EveryPlanReads, VariablesAreStored, HostsAreReached, AllResolve;
    hide Readable, VariablesStored, HostsAllowed, Users;
    assert |checks| == |CodeList(checks)| == 6;
    assert forall i :: 0 <= i < 6 ==> checks[i].status == StatusList(checks)[i] && checks[i].code == CODES[i];
  }

  lemma {:induction false} UnresolvedNames(git: Git, plans: seq<PlanInput>, name: string)
    ensures name in Unresolved(git, plans) <==>
      exists p :: p in plans && p.repoName == name && git.resolve(p.access, p.ref).None?
  {
    if plans != [] {
      var front, last := plans[..|plans| - 1], plans[|plans| - 1];
      UnresolvedNames(git, front, name);
      assert plans == front + [last];
      assert last in plans;
    }
  }

  /** What the checks on plans name. */
  ghost predicate Naming(inputs: PreflightInput, git: Git, refs: Check, variables: Check, targets: Check) {
    var summaries := Summaries(git, Resolved(git, inputs.plans), inputs.plans);
    && refs.named == Unresolved(git, inputs.plans)
    && (Readable(git, inputs.plans) ==>
          && variables.named == SortedStrings(Referenced(summaries) - inputs.variables.Keys)
          && forall h :: h in targets.named <==> h in Hosts(summaries) && !HostAllowed(inputs, h))
  }

  lemma RefsNamed(inputs: PreflightInput, git: Git, named: seq<string>)
    requires named == Unresolved(git, inputs.plans)
    ensures NamesRefs(inputs, git, named)
  {
    forall n ensures n in named <==>
      exists p :: p in inputs.plans && p.repoName == n && git.resolve(p.access, p.ref).None? {
      UnresolvedNames(git, inputs.plans, n);
    }
  }

  lemma VariablesNamed(inputs: PreflightInput, git: Git, named: seq<string>)
    requires var summaries := Summaries(git, Resolved(git, inputs.plans), inputs.plans);
      named == SortedStrings(Referenced(summaries) - inputs.variables.Keys)
    ensures NamesVariables(inputs, git, named)
  {
    MembersRead(git, inputs.plans);
    hide Resolved, Summaries, Referenced, VariableOf;
  }

  lemma HostsNamed(inputs: PreflightInput, git: Git, named: seq<string>)
    requires var summaries := Summaries(git, Resolved(git, inputs.plans), inputs.plans);
      forall h :: h in named <==> h in Hosts(summaries) && !HostAllowed(inputs, h)
    ensures NamesHosts(inputs, git, named)
  {
    MembersRead(git, inputs.plans);
    forall host ensures HostAllowed(inputs, host) <==> Reaches(inputs, host) {
      AllowedExactly(inputs, host);
    }
    hide Resolved, Summaries, Hosts, HostOfPlans, HostAllowed, Reaches;
  }

  lemma NamesSay(inputs: PreflightInput, git: Git, report: Report)
    requires |report.checks| == 6
    requires Naming(inputs, git, report.checks[1], report.checks[3], report.checks[4])
    ensures SaysWhich(inputs, git, report)
  {
    hide NamesRefs, NamesVariables, NamesHosts, EveryPlanReads, Readable, Unresolved, Resolved, Summaries, Referenced;
    hide Hosts, HostAllowed, EveryRefResolves, AllResolve, VariablesStored, HostsAllowed;
    ConditionsAre(inputs, git);
    RefsNamed(inputs, git, report.checks[1].named);
    if Readable(git, inputs.plans) {
      VariablesNamed(inputs, git, report.checks[3].named);
      HostsNamed(inputs, git, report.checks[4].named);
    }
  }

  /** Failures accumulate and the six codes are always there, in one order. */
  method Run(inputs: PreflightInput, git: Git) returns (report: Report)
    ensures CodeList(report.checks) == CODES
    ensures StatusList(report.checks) == Statuses(git, inputs)
    ensures report.ok <==> AllPass(Statuses(git, inputs))
    ensures Says(inputs, git, report) && SaysWhich(inputs, git, report)
  {
    hide Says, SaysWhich, Naming;
    var structure := StructureCheck(inputs);
    var refs, parses, variables, targets := PlanChecks(inputs, git);
    report := Assemble(structure, refs, parses, variables, targets, CapacityCheck(inputs));
    StatusesSay(inputs, git, report);
    NamesSay(inputs, git, report);
  }

  /** The four checks that talk to Git; the last three share one fetch of each plan. */
  method PlanChecks(inputs: PreflightInput, git: Git)
    returns (refs: Check, parses: Check, variables: Check, targets: Check)
    ensures refs == Check(ScriptRef, PassIf(AllResolve(git, inputs.plans)), Unresolved(git, inputs.plans))
    ensures parses.code == PlanParses && variables.code == VariablesPresent && targets.code == TargetAllowed
    ensures parses.status == if AllResolve(git, inputs.plans) then PassIf(Readable(git, inputs.plans)) else Skipped
    ensures var summaries := Summaries(git, Resolved(git, inputs.plans), inputs.plans);
      if Readable(git, inputs.plans)
      then variables.status == PassIf(VariablesStored(inputs, summaries))
        && targets.status == PassIf(HostsAllowed(inputs, summaries))
      else variables.status == targets.status == Skipped
    ensures Naming(inputs, git, refs, variables, targets)
  {
    BlockedExactly(git, inputs.plans);
    var resolved, unresolved := ResolveAll(git, inputs.plans);
    refs := Check(ScriptRef, if unresolved != [] then Fail else Pass, unresolved);
    var summaries, failures := ReadAll(git, resolved, inputs.plans);
    parses := if unresolved != [] then Check(PlanParses, Skipped, [])
              else Check(PlanParses, if failures != [] then Fail else Pass, failures);
    var blocked := unresolved != [] || failures != [];
    variables := VariablesCheck(summaries, inputs, blocked);
    targets := TargetsCheck(summaries, inputs, blocked);
  }

  // ---- What the report means ----------------------------------------------------------------

  /** The plan at the commit its own ref names. */
  function Own(git: Git, p: PlanInput): Option<PlanSummary> {
    match Resolution(git, p)
    case None => None
    case Some(sha) => git.plan(p.access, sha, p.planPath)
  }

  /** Everything a run of this test needs. */
  ghost predicate Ready(git: Git, inputs: PreflightInput) {
    && inputs.plans != [] && Users(inputs.plans) == inputs.requestedUsers
    && inputs.freeCapacity.Some? && inputs.requestedUsers <= inputs.freeCapacity.value
    && (forall p :: p in inputs.plans ==> Own(git, p).Some?)
    && (forall p, name :: p in inputs.plans && name in Own(git, p).value.variables ==> name in inputs.variables)
    && (exists p, t :: p in inputs.plans && t in Own(git, p).value.targets)
    && (forall p, t :: p in inputs.plans && t in Own(git, p).value.targets ==> Reaches(inputs, t.host))
  }

  type Fetch = (Access, Sha, string)

  function At(git: Git, k: Fetch): Option<PlanSummary> {
    git.plan(k.0, k.1, k.2)
  }

  /** What should be fetched: every plan at the commit its own ref names. */
  ghost function OwnFetches(git: Git, plans: seq<PlanInput>): set<Fetch> {
    set p | p in plans && Resolution(git, p).Some? :: (p.access, Resolution(git, p).value, p.planPath)
  }

  /** What is fetched: every plan at the commit recorded under its repository's name. */
  ghost function MadeFetches(git: Git, plans: seq<PlanInput>): set<Fetch> {
    var resolved := Resolved(git, plans);
    set p | p in plans && p.repoName in resolved :: (p.access, resolved[p.repoName], p.planPath)
  }

  ghost predicate FetchesAgree(git: Git, plans: seq<PlanInput>) {
    OwnFetches(git, plans) == MadeFetches(git, plans)
  }

  /** Plans that share a repository name also share the commit they resolve to. */
  ghost predicate NamesAgree(git: Git, plans: seq<PlanInput>) {
    forall p, q :: p in plans && q in plans && p.repoName == q.repoName ==> Resolution(git, p) == Resolution(git, q)
  }

  lemma {:induction false} ResolvedComesFrom(git: Git, plans: seq<PlanInput>, name: string)
    requires name in Resolved(git, plans)
    ensures exists p :: p in plans && p.repoName == name && Resolution(git, p) == Some(Resolved(git, plans)[name])
  {
    var front, last := plans[..|plans| - 1], plans[|plans| - 1];
    assert last in plans;
    if !(last.repoName == name && Resolution(git, last).Some?) {
      ResolvedComesFrom(git, front, name);
      var p :| p in front && p.repoName == name && Resolution(git, p) == Some(Resolved(git, front)[name]);
      assert p in plans;
    }
  }

  /** Then each commit fetched is the one its ref names, even when some ref does not resolve. */
  lemma NamesAgreeSuffices(git: Git, plans: seq<PlanInput>)
    requires NamesAgree(git, plans)
    ensures FetchesAgree(git, plans)
  {
    UnresolvedExactly(git, plans);
    forall p | p in plans && p.repoName in Resolved(git, plans)
      ensures Resolution(git, p) == Some(Resolved(git, plans)[p.repoName]) {
      ResolvedComesFrom(git, plans, p.repoName);
    }
  }

  ghost predicate DistinctNames(plans: seq<PlanInput>) {
    forall i, j :: 0 <= i < j < |plans| ==> plans[i].repoName != plans[j].repoName
  }

  lemma DistinctNamesAgree(git: Git, plans: seq<PlanInput>)
    requires DistinctNames(plans)
    ensures NamesAgree(git, plans) && FetchesAgree(git, plans)
  {
    NamesAgreeSuffices(git, plans);
  }

  lemma {:induction false} SummariesAreFetched(git: Git, resolved: map<string, Sha>, plans: seq<PlanInput>,
                                               s: PlanSummary)
    ensures s in Summaries(git, resolved, plans) <==> exists p :: p in plans && Fetched(git, resolved, p) == Some(s)
  {
    if plans != [] {
      var front, last := plans[..|plans| - 1], plans[|plans| - 1];
      SummariesAreFetched(git, resolved, front, s);
      assert plans == front + [last];
      if s in Summaries(git, resolved, front) {
        var p :| p in front && Fetched(git, resolved, p) == Some(s);
        assert p in plans;
      }
    }
  }

  lemma FetchedAt(git: Git, plans: seq<PlanInput>, s: PlanSummary)
    requires AllResolve(git, plans)
    ensures (exists p :: p in plans && Fetched(git, Resolved(git, plans), p) == Some(s))
       <==> (exists k :: k in MadeFetches(git, plans) && At(git, k) == Some(s))
    ensures (exists p :: p in plans && Own(git, p) == Some(s))
      <==> exists k :: k in OwnFetches(git, plans) && At(git, k) == Some(s)
  {
    UnresolvedExactly(git, plans);
    var resolved := Resolved(git, plans);
    if p :| p in plans && Fetched(git, resolved, p) == Some(s) {
      var k: Fetch := (p.access, resolved[p.repoName], p.planPath);
      assert k in MadeFetches(git, plans) && At(git, k) == Some(s);
    }
    if p :| p in plans && Own(git, p) == Some(s) {
      var k: Fetch := (p.access, Resolution(git, p).value, p.planPath);
      assert k in OwnFetches(git, plans) && At(git, k) == Some(s);
    }
  }

  lemma ParsedAt(git: Git, plans: seq<PlanInput>)
    requires AllResolve(git, plans)
    ensures AllParse(git, plans, Resolved(git, plans))
      <==> forall k :: k in MadeFetches(git, plans) ==> At(git, k).Some?
    ensures (forall p :: p in plans ==> Own(git, p).Some?)
      <==> forall k :: k in OwnFetches(git, plans) ==> At(git, k).Some?
  {
    UnresolvedExactly(git, plans);
    var resolved := Resolved(git, plans);
    if forall k :: k in MadeFetches(git, plans) ==> At(git, k).Some? {
      forall p | p in plans ensures Fetched(git, resolved, p).Some? {
        assert (p.access, resolved[p.repoName], p.planPath) in MadeFetches(git, plans);
      }
    }
    if forall k :: k in OwnFetches(git, plans) ==> At(git, k).Some? {
      forall p | p in plans ensures Own(git, p).Some? {
        assert (p.access, Resolution(git, p).value, p.planPath) in OwnFetches(git, plans);
      }
    }
  }

  lemma SummariesAreOwn(git: Git, plans: seq<PlanInput>)
    requires FetchesAgree(git, plans) && AllResolve(git, plans)
    ensures forall s ::
      s in Summaries(git, Resolved(git, plans), plans) <==> exists p :: p in plans && Own(git, p) == Some(s)
    ensures AllParse(git, plans, Resolved(git, plans)) <==> forall p :: p in plans ==> Own(git, p).Some?
  {
    ParsedAt(git, plans);
    forall s
      ensures s in Summaries(git, Resolved(git, plans), plans) <==> exists p :: p in plans && Own(git, p) == Some(s) {
      SummariesAreFetched(git, Resolved(git, plans), plans, s);
      FetchedAt(git, plans, s);
    }
  }

  /** The report is `ok` exactly when the test is ready, as long as what is fetched is what should be. */
  lemma OkIsReady(git: Git, inputs: PreflightInput)
    requires FetchesAgree(git, inputs.plans)
    ensures AllPass(Statuses(git, inputs)) <==> Ready(git, inputs)
  {
    var plans := inputs.plans;
    var summaries := Summaries(git, Resolved(git, plans), plans);
    AllSixPass(Sums(inputs), AllResolve(git, plans), Readable(git, plans),
               VariablesStored(inputs, summaries), HostsAllowed(inputs, summaries), Fits(inputs));
    OwnAllIsReadable(git, plans);
    if Readable(git, plans) {
      MembersOfOwn(git, plans);
      ReadyByMembers(git, inputs, summaries);
    }
  }

  /** With pairwise distinct repository names the report is `ok` exactly when the test is ready. */
  lemma DistinctNamesOkIsReady(git: Git, inputs: PreflightInput)
    requires DistinctNames(inputs.plans)
    ensures AllPass(Statuses(git, inputs)) <==> Ready(git, inputs)
  {
    DistinctNamesAgree(git, inputs.plans);
    OkIsReady(git, inputs);
  }

  lemma OwnAllIsReadable(git: Git, plans: seq<PlanInput>)
    requires FetchesAgree(git, plans)
    ensures Readable(git, plans) <==> forall p :: p in plans ==> Own(git, p).Some?
  {
    if AllResolve(git, plans) {
      SummariesAreOwn(git, plans);
    }
  }

  ghost predicate MembersMatch(git: Git, plans: seq<PlanInput>, summaries: seq<PlanSummary>)
    requires forall p :: p in plans ==> Own(git, p).Some?
  {
    && (forall p, name :: p in plans && name in Own(git, p).value.variables ==> name in Referenced(summaries))
    && (forall name :: name in Referenced(summaries) ==> exists p :: p in plans && name in Own(git, p).value.variables)
    && (forall p, t :: p in plans && t in Own(git, p).value.targets ==> t.host in Hosts(summaries))
    && (forall h :: h in Hosts(summaries) ==>
          exists p, t :: p in plans && t in Own(git, p).value.targets && t.host == h)
  }

  lemma ReadyByMembers(git: Git, inputs: PreflightInput, summaries: seq<PlanSummary>)
    requires forall p :: p in inputs.plans ==> Own(git, p).Some?
    requires MembersMatch(git, inputs.plans, summaries)
    ensures Ready(git, inputs) <==>
      Sums(inputs) && VariablesStored(inputs, summaries) && HostsAllowed(inputs, summaries) && Fits(inputs)
  {
    forall host ensures HostAllowed(inputs, host) <==> Reaches(inputs, host) {
      AllowedExactly(inputs, host);
    }
    hide Own, Referenced, Hosts, HostAllowed, Reaches;
    if Hosts(summaries) != {} {
      var h :| h in Hosts(summaries);
      var p, t :| p in inputs.plans && t in Own(git, p).value.targets && t.host == h;
    }
    if p, t :| p in inputs.plans && t in Own(git, p).value.targets {
      assert t.host in Hosts(summaries);
    }
  }

  lemma MembersOfOwn(git: Git, plans: seq<PlanInput>)
    requires FetchesAgree(git, plans) && AllResolve(git, plans) && forall p :: p in plans ==> Own(git, p).Some?
    ensures MembersMatch(git, plans, Summaries(git, Resolved(git, plans), plans))
  {
    SummariesAreOwn(git, plans);
    var summaries := Summaries(git, Resolved(git, plans), plans);
    forall p | p in plans ensures Own(git, p).value in summaries {
      assert Own(git, p) == Some(Own(git, p).value);
    }
  }

  // ---- Order of plans -----------------------------------------------------------------------

  lemma {:induction false} UsersOfConcat(xs: seq<PlanInput>, ys: seq<PlanInput>)
    ensures Users(xs + ys) == Users(xs) + Users(ys)
  {
    if ys == [] {
      assert xs + ys == xs;
    } else {
      assert (xs + ys)[..|xs + ys| - 1] == xs + ys[..|ys| - 1];
      UsersOfConcat(xs, ys[..|ys| - 1]);
    }
  }

  lemma Without(xs: seq<PlanInput>, ys: seq<PlanInput>, last: PlanInput) returns (i: nat)
    requires multiset(xs + [last]) == multiset(ys)
    ensures i < |ys| && ys[i] == last && multiset(ys[..i] + ys[i + 1..]) == multiset(xs)
  {
    assert last in multiset(ys);
    i :| 0 <= i < |ys| && ys[i] == last;
    assert ys == ys[..i] + [last] + ys[i + 1..];
    var rest := multiset(ys[..i] + ys[i + 1..]);
    assert multiset(ys) == rest + multiset{last};
    assert multiset(xs + [last]) == multiset(xs) + multiset{last};
    assert rest == rest + multiset{last} - multiset{last};
    assert multiset(xs) == multiset(xs) + multiset{last} - multiset{last};
  }

  lemma {:induction false} UsersOfPermutation(xs: seq<PlanInput>, ys: seq<PlanInput>)
    requires multiset(xs) == multiset(ys)
    ensures Users(xs) == Users(ys)
    decreases |xs|
  {
    if xs == [] {
      assert |multiset(ys)| == 0;
    } else {
      var front, last := xs[..|xs| - 1], xs[|xs| - 1];
      assert xs == front + [last];
      var i := Without(front, ys, last);
      UsersOfPermutation(front, ys[..i] + ys[i + 1..]);
      UsersAround(ys[..i], last, ys[i + 1..]);
      assert ys == ys[..i] + [last] + ys[i + 1..];
    }
  }

  lemma OneUser(p: PlanInput)
    ensures Users([p]) == p.virtualUsers
  {
    assert [p][..0] == [] && Users([]) == 0;
  }

  lemma UsersAround(front: seq<PlanInput>, p: PlanInput, back: seq<PlanInput>)
    ensures Users(front + [p] + back) == Users(front + back) + p.virtualUsers
  {
    OneUser(p);
    hide Users;
    UsersOfConcat(front, back);
    UsersOfConcat(front + [p], back);
    UsersOfConcat(front, [p]);
  }

  /** The statuses do not depend on the order the plans are listed in. */
  lemma OrderDoesNotMatter(git: Git, inputs: PreflightInput, plans: seq<PlanInput>)
    requires NamesAgree(git, inputs.plans) && multiset(inputs.plans) == multiset(plans)
    ensures Statuses(git, inputs) == Statuses(git, inputs.(plans := plans))
  {
    UsersOfPermutation(inputs.plans, plans);
    SamePlans(inputs.plans, plans);
    SameReading(git, inputs.plans, plans);
  }

  lemma SamePlans(xs: seq<PlanInput>, ys: seq<PlanInput>)
    requires multiset(xs) == multiset(ys)
    ensures (forall p :: p in xs <==> p in ys) && (xs == [] <==> ys == [])
  {
    forall p ensures p in xs <==> p in ys {
      assert p in multiset(xs) <==> p in multiset(ys);
    }
    assert |multiset(xs)| == |multiset(ys)|;
  }

  lemma SameReading(git: Git, xs: seq<PlanInput>, ys: seq<PlanInput>)
    requires NamesAgree(git, xs) && forall p :: p in xs <==> p in ys
    ensures AllResolve(git, xs) <==> AllResolve(git, ys)
    ensures Readable(git, xs) <==> Readable(git, ys)
    ensures Readable(git, xs) ==>
      var s, s' := Summaries(git, Resolved(git, xs), xs), Summaries(git, Resolved(git, ys), ys);
      Referenced(s) == Referenced(s') && Hosts(s) == Hosts(s')
  {
    if AllResolve(git, xs) {
      NamesAgreeSuffices(git, xs);
      NamesAgreeSuffices(git, ys);
      SummariesAreOwn(git, xs);
      SummariesAreOwn(git, ys);
      var s, s' := Summaries(git, Resolved(git, xs), xs), Summaries(git, Resolved(git, ys), ys);
      forall x ensures x in s <==> x in s' {
        if p :| p in xs && Own(git, p) == Some(x) {
          assert p in ys;
        }
        if p :| p in ys && Own(git, p) == Some(x) {
          assert p in xs;
        }
      }
    }
  }

  // ---- When the report misjudges ------------------------------------------------------------

  /** The same repositories and refs, with other content at their commits. */
  function WithContent(git: Git, content: (Access, Sha, string) -> Option<PlanSummary>): Git {
    Git(git.resolve, content)
  }

  function AllBut(missing: Fetch, summary: PlanSummary): (Access, Sha, string) -> Option<PlanSummary> {
    (access: Access, sha: Sha, path: string) => if (access, sha, path) == missing then None else Some(summary)
  }

  lemma {:induction false} SameResolved(git: Git, content: (Access, Sha, string) -> Option<PlanSummary>,
                                        plans: seq<PlanInput>)
    ensures Resolved(WithContent(git, content), plans) == Resolved(git, plans)
  {
    if plans != [] {
      SameResolved(git, content, plans[..|plans| - 1]);
    }
  }

  lemma SameFetches(git: Git, content: (Access, Sha, string) -> Option<PlanSummary>, plans: seq<PlanInput>)
    ensures OwnFetches(WithContent(git, content), plans) == OwnFetches(git, plans)
    ensures MadeFetches(WithContent(git, content), plans) == MadeFetches(git, plans)
    ensures AllResolve(WithContent(git, content), plans) <==> AllResolve(git, plans)
  {
    SameResolved(git, content, plans);
    assert forall p :: Resolution(WithContent(git, content), p) == Resolution(git, p);
  }

  /** A commit wrongly fetched and unreadable fails a test that is ready; one wrongly skipped passes a
      test that is not. */
  lemma OneUnreadable(git: Git, inputs: PreflightInput, summary: PlanSummary, k: Fetch)
    requires AllResolve(git, inputs.plans) && Sums(inputs) && Fits(inputs)
    requires VariablesStored(inputs, [summary]) && HostsAllowed(inputs, [summary])
    requires k in OwnFetches(git, inputs.plans) <==> k !in MadeFetches(git, inputs.plans)
    ensures var g := WithContent(git, AllBut(k, summary)); AllPass(Statuses(g, inputs)) <==> !Ready(g, inputs)
  {
    var g := WithContent(git, AllBut(k, summary));
    SameFetches(git, AllBut(k, summary), inputs.plans);
    assert forall f: Fetch :: At(g, f) == if f == k then None else Some(summary);
    ParsedAt(g, inputs.plans);
    if k in MadeFetches(git, inputs.plans) {
      NotReadable(g, inputs);
      ReadyWithOne(g, inputs, summary);
    } else {
      assert !Ready(g, inputs);
      PassWithOne(g, inputs, summary);
    }
  }

  lemma NotReadable(git: Git, inputs: PreflightInput)
    requires !Readable(git, inputs.plans)
    ensures !AllPass(Statuses(git, inputs))
  {
    var summaries := Summaries(git, Resolved(git, inputs.plans), inputs.plans);
    AllSixPass(Sums(inputs), AllResolve(git, inputs.plans), Readable(git, inputs.plans),
               VariablesStored(inputs, summaries), HostsAllowed(inputs, summaries), Fits(inputs));
  }

  lemma OneSummary(inputs: PreflightInput, summaries: seq<PlanSummary>, summary: PlanSummary)
    requires summaries != [] && forall s :: s in summaries ==> s == summary
    ensures Referenced(summaries) == Referenced([summary]) && Hosts(summaries) == Hosts([summary])
  {
    assert summaries[0] in summaries;
  }

  lemma ReadyWithOne(git: Git, inputs: PreflightInput, summary: PlanSummary)
    requires Sums(inputs) && Fits(inputs) && VariablesStored(inputs, [summary]) && HostsAllowed(inputs, [summary])
    requires forall p :: p in inputs.plans ==> Own(git, p) == Some(summary)
    ensures Ready(git, inputs)
  {
    OneMatches(git, inputs.plans, summary);
    ReadyByMembers(git, inputs, [summary]);
    hide Ready, MembersMatch, Sums, Fits, VariablesStored, HostsAllowed;
  }

  lemma OneMatches(git: Git, plans: seq<PlanInput>, summary: PlanSummary)
    requires plans != [] && forall p :: p in plans ==> Own(git, p) == Some(summary)
    ensures MembersMatch(git, plans, [summary])
  {
    assert summary in [summary] && plans[0] in plans && Own(git, plans[0]).value == summary;
    hide Own;
    assert forall name :: name in Referenced([summary]) <==> name in summary.variables;
  }

  lemma PassWithOne(git: Git, inputs: PreflightInput, summary: PlanSummary)
    requires Sums(inputs) && Fits(inputs) && VariablesStored(inputs, [summary]) && HostsAllowed(inputs, [summary])
    requires AllResolve(git, inputs.plans)
    requires forall k :: k in MadeFetches(git, inputs.plans) ==> At(git, k) == Some(summary)
    ensures AllPass(Statuses(git, inputs))
  {
    hide HostAllowed, Referenced, Hosts;
    var resolved := Resolved(git, inputs.plans);
    var summaries := Summaries(git, resolved, inputs.plans);
    ParsedAt(git, inputs.plans);
    forall s ensures s in summaries <==> s == summary {
      SummariesAreFetched(git, resolved, inputs.plans, s);
      FetchedAt(git, inputs.plans, s);
      if s == summary {
        var p := inputs.plans[0];
        assert p in inputs.plans && Fetched(git, resolved, p).Some?;
        assert (p.access, resolved[p.repoName], p.planPath) in MadeFetches(git, inputs.plans);
      }
    }
    assert summary in summaries;
    OneSummary(inputs, summaries, summary);
    AllSixPass(Sums(inputs), AllResolve(git, inputs.plans), Readable(git, inputs.plans),
               VariablesStored(inputs, summaries), HostsAllowed(inputs, summaries), Fits(inputs));
  }

  /** Whatever the commits hold, the report is right if and only if the fetches made are the fetches that should be. */
  lemma RightExactly(git: Git, inputs: PreflightInput, summary: PlanSummary)
    requires AllResolve(git, inputs.plans) && Sums(inputs) && Fits(inputs)
    requires VariablesStored(inputs, [summary]) && HostsAllowed(inputs, [summary])
    ensures FetchesAgree(git, inputs.plans) <==>
      forall content :: AllPass(Statuses(WithContent(git, content), inputs))
        <==> Ready(WithContent(git, content), inputs)
  {
    if FetchesAgree(git, inputs.plans) {
      forall content ensures AllPass(Statuses(WithContent(git, content), inputs))
        <==> Ready(WithContent(git, content), inputs) {
        SameFetches(git, content, inputs.plans);
        OkIsReady(WithContent(git, content), inputs);
      }
    } else {
      var own, made := OwnFetches(git, inputs.plans), MadeFetches(git, inputs.plans);
      var k :| k in own <==> k !in made;
      OneUnreadable(git, inputs, summary, k);
    }
  }

  /** One repository listed twice with refs that resolve differently is such a test. */
  lemma TwoRefsDisagree(git: Git, p: PlanInput, q: PlanInput)
    requires p.repoName == q.repoName && Resolution(git, p).Some? && Resolution(git, q).Some?
    requires p.access == q.access && p.planPath == q.planPath && Resolution(git, p) != Resolution(git, q)
    ensures (p.access, Resolution(git, p).value, p.planPath) in OwnFetches(git, [p, q])
    ensures (p.access, Resolution(git, p).value, p.planPath) !in MadeFetches(git, [p, q])
    ensures !FetchesAgree(git, [p, q])
  {
    assert [p, q][..1] == [p] && [p][..0] == [];
    assert Resolved(git, [p]) == map[p.repoName := Resolution(git, p).value];
    assert p in [p, q];
  }

  /** Whenever such a test otherwise passes, the first ref's commit can lack the plan and the report is
      `ok` all the same. */
  lemma TwoRefsMisjudged(git: Git, inputs: PreflightInput, p: PlanInput, q: PlanInput, summary: PlanSummary)
    requires p.repoName == q.repoName && Resolution(git, p).Some? && Resolution(git, q).Some?
    requires p.access == q.access && p.planPath == q.planPath && Resolution(git, p) != Resolution(git, q)
    requires inputs.plans == [p, q] && Sums(inputs) && Fits(inputs)
    requires VariablesStored(inputs, [summary]) && HostsAllowed(inputs, [summary])
    ensures var g := WithContent(git, AllBut((p.access, Resolution(git, p).value, p.planPath), summary));
      Own(g, p).None? && AllPass(Statuses(g, inputs)) && !Ready(g, inputs)
  {
    TwoRefsDisagree(git, p, q);
    var k := (p.access, Resolution(git, p).value, p.planPath);
    OneUnreadable(git, inputs, summary, k);
    var g := WithContent(git, AllBut(k, summary));
    assert Resolution(g, p) == Resolution(git, p);
    assert At(g, k).None?;
    assert p in inputs.plans;
  }

  /** A host of one letter is no reference and stands for itself. */
  lemma PlainHost(h: string, variables: map<string, string>)
    requires |h| == 1 && 'a' <= h[0] <= 'z'
    ensures ResolveHost(h, variables) == Some(h) && TargetPolicy.Candidate(h) == h
  {
    PlainText(h);
    MentionsIs(h);
    hide Strip, Mentions;
    assert WholeVariable(h).None?;
  }

  lemma PlainText(h: string)
    requires |h| == 1 && 'a' <= h[0] <= 'z'
    ensures Strip(h) == h && TargetPolicy.Candidate(h) == h
  {
    hide Strip, Lower;
    var i, j := StripExactly(h);
    SpaceIsWhite(h[0]);
    assert TrimmedTo(h, 0, 1);
    TrimmedOnce(h, i, j, 0, 1);
    assert h[0..1] == h;
    OwnLower(h);
  }

  lemma OwnLower(h: string)
    requires |h| == 1 && 'a' <= h[0] <= 'z'
    ensures Lower(h) == h
  {
    assert Lower(h)[0] == h[0];
  }

  lemma PlainRule(h: string)
    requires |h| == 1 && 'a' <= h[0] <= 'z'
    ensures TargetPolicy.RulePermits(h, h)
  {
    assert '/' !in h && !StartsWith(h, ".");
  }

  lemma PlainHostAllowed(inputs: PreflightInput, h: string)
    requires |h| == 1 && 'a' <= h[0] <= 'z' && h in inputs.allowlist
    ensures HostAllowed(inputs, h)
  {
    PlainHost(h, inputs.variables);
    PlainRule(h);
    RuleInForce(inputs.allowlist, h);
    hide TargetPolicy.Permits, ResolveHost;
  }

  lemma RuleInForce(entries: seq<string>, h: string)
    requires h in entries && h != "" && TargetPolicy.Candidate(h) == h && TargetPolicy.RulePermits(h, h)
    ensures TargetPolicy.Permits(entries, h)
  {
    hide TargetPolicy.Candidate, TargetPolicy.RulePermits;
  }

  lemma OneTarget(inputs: PreflightInput, summary: PlanSummary)
    requires inputs.allowlist == ["h"] && summary.variables == [] && summary.targets == [Target("http", "h", None)]
    ensures VariablesStored(inputs, [summary]) && HostsAllowed(inputs, [summary])
  {
    hide HostAllowed, Hosts, Referenced;
    PlainHostAllowed(inputs, "h");
    OnlyHost(summary, Target("http", "h", None));
  }

  lemma OnlyHost(summary: PlanSummary, t: Target)
    requires summary.targets == [t] && summary.variables == []
    ensures Hosts([summary]) == {t.host} && Referenced([summary]) == {}
  {
    assert summary in [summary] && t in summary.targets;
  }

  lemma TwoUsers(inputs: PreflightInput, p: PlanInput, q: PlanInput)
    requires inputs.plans == [p, q] && p.virtualUsers == q.virtualUsers == 1 && inputs.requestedUsers == 2
    requires inputs.freeCapacity == Some(2)
    ensures Sums(inputs) && Fits(inputs)
  {
    assert [p, q][..1] == [p] && [p][..0] == [];
    assert Users([p]) == 1;
  }

  /** A report that is `ok` for a test whose first plan does not exist at the commit its ref names. */
  lemma MisjudgedReport() returns (git: Git, inputs: PreflightInput)
    ensures AllPass(Statuses(git, inputs)) && !Ready(git, inputs)
  {
    hide Statuses, Ready, Sums, Fits, VariablesStored, HostsAllowed, Own, AllPass;
    var p, q := PlanInput("r", "a", "p", "x", 1), PlanInput("r", "a", "p", "y", 1);
    var summary := PlanSummary([], [], [], [], [], [Target("http", "h", None)]);
    var refs := Git((access: Access, ref: string) => Some(ref), (access: Access, sha: Sha, path: string) => None);
    inputs := PreflightInput(2, [p, q], ["h"], map[], Some(2));
    assert "x"[0] != "y"[0];
    TwoUsers(inputs, p, q);
    OneTarget(inputs, summary);
    TwoRefsMisjudged(refs, inputs, p, q, summary);
    git := WithContent(refs, AllBut((p.access, Resolution(refs, p).value, p.planPath), summary));
  }
}
