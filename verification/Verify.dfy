/** Checking one commit of a script repository against its plan and its manifest. */
module Verify {
  import opened Wrappers
  import opened Orders
  import opened StringOrder
  import opened Text
  import Jmx

  /** An absolute path by its parts; the filesystem root is the empty list. */
  type Path = seq<string>

  /** A path as it was written: relative to some directory, or absolute. */
  datatype Written = Relative(parts: seq<string>) | Absolute(parts: seq<string>)

  const MANIFEST_NAME := "plimsoll.yaml"

  function Kept(parts: seq<string>): seq<string> {
    if parts == [] then [] else (if parts[0] == "" || parts[0] == "." then [] else [parts[0]]) + Kept(parts[1..])
  }

  function PathOf(text: string): Written {
    var parts := Kept(Split(text, '/'));
    if StartsWith(text, "/") then Absolute(parts) else Relative(parts)
  }

  function Parent(p: Path): Path {
    if p == [] then [] else p[..|p| - 1]
  }

  /** `directory / text`: an absolute path replaces the directory. */
  function JoinPath(directory: Path, text: string): Path {
    match PathOf(text)
    case Relative(parts) => directory + parts
    case Absolute(parts) => parts
  }

  function BaseName(text: string): string {
    var parts := PathOf(text).parts;
    if parts == [] then "" else parts[|parts| - 1]
  }

  /** What a checkout holds: where its files are, and what parsing the plan and a manifest there yields. */
  datatype Checkout = Checkout(root: Path, isFile: Path -> bool,
                               plan: Path -> Option<Jmx.PlanSummary>, manifest: Path -> Option<Manifest>)
  {
    function PlanDirectory(planPath: string): Path {
      Parent(JoinPath(root, planPath))
    }

    predicate Present(planPath: string, file: string) {
      isFile(JoinPath(PlanDirectory(planPath), file))
    }
  }

  datatype ManifestPlan = ManifestPlan(path: string, data: seq<string>, variables: seq<string>)

  datatype Plugin = Plugin(id: string, version: string, sha256: string)

  datatype Manifest = Manifest(plugins: seq<Plugin>, plans: seq<ManifestPlan>)

  datatype Severity = Error | Warning

  datatype FindingCode =
    | PlanMissing | PlanUnparseable | TargetUnresolved | ManifestInvalid | PlanNotDeclared
    | DataFileMissing | DataFileUndeclared | VariableNotDeclared

  /** `named` are the files, hosts or variables the message lists. */
  datatype Finding = Finding(code: FindingCode, severity: Severity, named: seq<string>)

  datatype VerifyReport = VerifyReport(ok: bool, commitSha: string, findings: seq<Finding>,
                                       plan: Option<Jmx.PlanSummary>, plugins: seq<Plugin>)

  datatype Unreachable = RepoUnreachable

  // ---- Searching upward ---------------------------------------------------------------------

  /** The search from one directory: itself first, then upward, stopping at the root or at once outside it. */
  function Nearest(c: Checkout, directory: Path): Option<Path>
    decreases |directory|
  {
    if c.isFile(directory + [MANIFEST_NAME]) then Some(directory + [MANIFEST_NAME])
    else if directory == c.root || !(c.root < directory) then None
    else Nearest(c, Parent(directory))
  }

  method FindManifest(c: Checkout, planPath: string) returns (manifest: Option<Path>)
    ensures manifest == Nearest(c, c.PlanDirectory(planPath))
  {
    var directory := c.PlanDirectory(planPath);
    while true
      invariant Nearest(c, directory) == Nearest(c, c.PlanDirectory(planPath))
      decreases |directory|
    {
      if c.isFile(directory + [MANIFEST_NAME]) {
        return Some(directory + [MANIFEST_NAME]);
      }
      if directory == c.root || !(c.root < directory) {
        return None;
      }
      directory := Parent(directory);
    }
  }

  ghost predicate AtOrAbove(d: Path, start: Path) {
    d <= start
  }

  lemma ParentIsNext(start: Path, e: Path)
    requires start != []
    ensures AtOrAbove(e, start) <==> e == start || AtOrAbove(e, Parent(start))
  {
    if e <= start && e != start {
      assert e == start[..|e|] == Parent(start)[..|e|];
    }
    if e <= Parent(start) {
      assert e == Parent(start)[..|e|] == start[..|e|];
    }
  }

  /** Inside the root the search finds the deepest manifest between the root and the plan, and misses none. */
  lemma {:induction false} NearestInside(c: Checkout, start: Path)
    requires AtOrAbove(c.root, start)
    ensures Nearest(c, start).None? ==>
      forall d :: AtOrAbove(d, start) && |d| >= |c.root| ==> !c.isFile(d + [MANIFEST_NAME])
    ensures Nearest(c, start).Some? ==>
      exists d :: AtOrAbove(d, start) && |d| >= |c.root| && Nearest(c, start) == Some(d + [MANIFEST_NAME])
        && c.isFile(d + [MANIFEST_NAME])
        && forall e :: AtOrAbove(e, start) && |e| > |d| ==> !c.isFile(e + [MANIFEST_NAME])
    decreases |start|
  {
    if c.isFile(start + [MANIFEST_NAME]) {
      assert AtOrAbove(start, start);
    } else if start != c.root {
      var up := Parent(start);
      forall e ensures AtOrAbove(e, start) <==> e == start || AtOrAbove(e, up) {
        ParentIsNext(start, e);
      }
      NearestInside(c, up);
    } else {
      forall d | AtOrAbove(d, start) && |d| >= |c.root| ensures d == start {
      }
    }
  }

  /** Outside it, only the directory of the plan is looked at. */
  lemma NearestOutside(c: Checkout, start: Path)
    requires !(c.root <= start)
    ensures Nearest(c, start) == if c.isFile(start + [MANIFEST_NAME]) then Some(start + [MANIFEST_NAME]) else None
  {
  }

  // ---- Findings -----------------------------------------------------------------------------

  /** The first manifest entry with the plan's file name. */
  function EntryFor(plans: seq<ManifestPlan>, planPath: string): Option<ManifestPlan> {
    if plans == [] then None
    else if BaseName(plans[0].path) == BaseName(planPath) then Some(plans[0])
    else EntryFor(plans[1..], planPath)
  }

  function Undeclared(entry: ManifestPlan, summary: Jmx.PlanSummary): set<string> {
    (set v | v in summary.variables) - (set v | v in entry.variables)
  }

  predicate Declares(c: Checkout, planPath: string, entry: ManifestPlan, summary: Jmx.PlanSummary) {
    && (forall f :: f in entry.data ==> c.Present(planPath, f))
    && (forall f :: f in summary.dataFiles ==> f in entry.data || c.Present(planPath, f))
    && (forall v :: v in summary.variables ==> v in entry.variables)
  }

  /** One finding for each declared file that is absent, as often as it is declared. */
  function MissingFindings(c: Checkout, planPath: string, data: seq<string>): seq<Finding> {
    if data == [] then [] else
    var last := data[|data| - 1];
    MissingFindings(c, planPath, data[..|data| - 1])
      + if c.Present(planPath, last) then [] else [Finding(DataFileMissing, Error, [last])]
  }

  /** One finding for each file the plan reads that is neither declared nor there. */
  function LooseFindings(c: Checkout, planPath: string, declared: seq<string>, files: seq<string>): seq<Finding> {
    if files == [] then [] else
    var last := files[|files| - 1];
    LooseFindings(c, planPath, declared, files[..|files| - 1])
      + if last in declared || c.Present(planPath, last) then [] else [Finding(DataFileUndeclared, Error, [last])]
  }

  /** At most one finding for variables, naming all that are not declared. */
  ghost function VariableFindings(undeclared: set<string>): seq<Finding> {
    if undeclared == {} then [] else [Finding(VariableNotDeclared, Error, SortedStrings(undeclared))]
  }

  ghost function FindingsOf(c: Checkout, planPath: string, entry: ManifestPlan,
                            summary: Jmx.PlanSummary): seq<Finding> {
    MissingFindings(c, planPath, entry.data) + LooseFindings(c, planPath, entry.data, summary.dataFiles)
      + VariableFindings(Undeclared(entry, summary))
  }

  /** Every finding is an error; each missing or undeclared file and each undeclared variable is named, and no other. */
  ghost predicate Faults(findings: seq<Finding>, c: Checkout, planPath: string, entry: ManifestPlan,
                         summary: Jmx.PlanSummary)
  {
    && (forall f :: f in findings ==> f.severity == Error)
    && (forall f :: Finding(DataFileMissing, Error, [f]) in findings <==> f in entry.data && !c.Present(planPath, f))
    && (forall f :: Finding(DataFileUndeclared, Error, [f]) in findings <==>
          f in summary.dataFiles && f !in entry.data && !c.Present(planPath, f))
    && (forall names :: Finding(VariableNotDeclared, Error, names) in findings <==>
          Undeclared(entry, summary) != {} && names == SortedStrings(Undeclared(entry, summary)))
    && (findings == [] <==> Declares(c, planPath, entry, summary))
  }

  method MissingData(c: Checkout, planPath: string, entry: ManifestPlan) returns (findings: seq<Finding>)
    ensures findings == MissingFindings(c, planPath, entry.data)
  {
    findings := [];
    for i := 0 to |entry.data|
      invariant findings == MissingFindings(c, planPath, entry.data[..i])
    {
      assert entry.data[..i + 1][..i] == entry.data[..i];
      if !c.Present(planPath, entry.data[i]) {
        findings := findings + [Finding(DataFileMissing, Error, [entry.data[i]])];
      }
    }
    assert entry.data[..|entry.data|] == entry.data;
  }

  method UndeclaredData(c: Checkout, planPath: string, entry: ManifestPlan, summary: Jmx.PlanSummary)
    returns (findings: seq<Finding>)
    ensures findings == LooseFindings(c, planPath, entry.data, summary.dataFiles)
  {
    var files := summary.dataFiles;
    findings := [];
    for i := 0 to |files|
      invariant findings == LooseFindings(c, planPath, entry.data, files[..i])
    {
      assert files[..i + 1][..i] == files[..i];
      var referenced := files[i];
      if referenced !in entry.data && !c.Present(planPath, referenced) {
        findings := findings + [Finding(DataFileUndeclared, Error, [referenced])];
      }
    }
    assert files[..|files|] == files;
  }

  /** The findings in their order, and what they amount to. */
  method ManifestFindings(c: Checkout, manifest: Manifest, planPath: string, summary: Jmx.PlanSummary)
    returns (findings: seq<Finding>)
    ensures match EntryFor(manifest.plans, planPath)
      case None => findings == [Finding(PlanNotDeclared, Error, [planPath])]
      case Some(entry) =>
        findings == FindingsOf(c, planPath, entry, summary) && Faults(findings, c, planPath, entry, summary)
    ensures SaysOfManifest(findings, c, c.PlanDirectory(planPath), manifest, planPath, summary)
  {
    EntryIsFirstNamed(manifest.plans, planPath);
    hide SaysOfEntry, FirstNamed;
    match EntryFor(manifest.plans, planPath)
    case None =>
      return [Finding(PlanNotDeclared, Error, [planPath])];
    case Some(entry) =>
      var missing := MissingData(c, planPath, entry);
      var loose := UndeclaredData(c, planPath, entry, summary);
      var undeclared := Undeclared(entry, summary);
      var listed := SortStrings(undeclared);
      var last := if undeclared != {} then [Finding(VariableNotDeclared, Error, listed)] else [];
      findings := missing + loose + last;
      FindingsAreFaults(c, planPath, entry, summary);
      EntrySays(c, planPath, entry, summary);
  }

  lemma HasMember(findings: seq<Finding>)
    requires findings != []
    ensures exists x :: x in findings
  {
    assert findings[0] in findings;
  }

  lemma {:induction false} MissingAre(c: Checkout, planPath: string, data: seq<string>, x: Finding)
    ensures x in MissingFindings(c, planPath, data) <==>
      exists f :: f in data && !c.Present(planPath, f) && x == Finding(DataFileMissing, Error, [f])
  {
    if data != [] {
      var front, last := data[..|data| - 1], data[|data| - 1];
      assert data == front + [last];
      MissingAre(c, planPath, front, x);
    }
  }

  lemma {:induction false} LooseAre(c: Checkout, planPath: string, declared: seq<string>, files: seq<string>,
                                    x: Finding)
    ensures x in LooseFindings(c, planPath, declared, files) <==>
      exists f :: f in files && f !in declared && !c.Present(planPath, f)
        && x == Finding(DataFileUndeclared, Error, [f])
  {
    if files != [] {
      var front, last := files[..|files| - 1], files[|files| - 1];
      assert files == front + [last];
      LooseAre(c, planPath, declared, front, x);
    }
  }

  lemma NoneMeansDeclared(c: Checkout, planPath: string, entry: ManifestPlan, summary: Jmx.PlanSummary)
    ensures FindingsOf(c, planPath, entry, summary) == [] <==> Declares(c, planPath, entry, summary)
  {
    var missing, loose :=
      MissingFindings(c, planPath, entry.data), LooseFindings(c, planPath, entry.data, summary.dataFiles);
    if FindingsOf(c, planPath, entry, summary) == [] {
      assert missing == [] && loose == [] && Undeclared(entry, summary) == {};
      forall v | v in summary.variables ensures v in entry.variables {
        assert v !in Undeclared(entry, summary);
      }
      forall f | f in entry.data ensures c.Present(planPath, f) {
        MissingAre(c, planPath, entry.data, Finding(DataFileMissing, Error, [f]));
      }
      forall f | f in summary.dataFiles ensures f in entry.data || c.Present(planPath, f) {
        LooseAre(c, planPath, entry.data, summary.dataFiles, Finding(DataFileUndeclared, Error, [f]));
      }
    }
    if Declares(c, planPath, entry, summary) {
      if missing != [] {
        HasMember(missing);
        var x :| x in missing;
        MissingAre(c, planPath, entry.data, x);
      }
      if loose != [] {
        HasMember(loose);
        var x :| x in loose;
        LooseAre(c, planPath, entry.data, summary.dataFiles, x);
      }
    }
  }

  lemma FindingsAreFaults(c: Checkout, planPath: string, entry: ManifestPlan, summary: Jmx.PlanSummary)
    ensures Faults(FindingsOf(c, planPath, entry, summary), c, planPath, entry, summary)
  {
    var missing, loose :=
      MissingFindings(c, planPath, entry.data), LooseFindings(c, planPath, entry.data, summary.dataFiles);
    var last := VariableFindings(Undeclared(entry, summary));
    var all := FindingsOf(c, planPath, entry, summary);
    forall x ensures x in all <==> x in missing || x in loose || x in last {
    }
    forall x | x in all ensures x.severity == Error {
      MissingAre(c, planPath, entry.data, x);
      LooseAre(c, planPath, entry.data, summary.dataFiles, x);
    }
    forall f ensures Finding(DataFileMissing, Error, [f]) in all <==> f in entry.data && !c.Present(planPath, f) {
      var x := Finding(DataFileMissing, Error, [f]);
      assert x.named[0] == f;
      MissingAre(c, planPath, entry.data, x);
      LooseAre(c, planPath, entry.data, summary.dataFiles, x);
    }
    forall f ensures Finding(DataFileUndeclared, Error, [f]) in all <==>
                     f in summary.dataFiles && f !in entry.data && !c.Present(planPath, f)
    {
      var x := Finding(DataFileUndeclared, Error, [f]);
      assert x.named[0] == f;
      MissingAre(c, planPath, entry.data, x);
      LooseAre(c, planPath, entry.data, summary.dataFiles, x);
    }
    forall names ensures Finding(VariableNotDeclared, Error, names) in all <==>
                         Undeclared(entry, summary) != {} && names == SortedStrings(Undeclared(entry, summary))
    {
      MissingAre(c, planPath, entry.data, Finding(VariableNotDeclared, Error, names));
      LooseAre(c, planPath, entry.data, summary.dataFiles, Finding(VariableNotDeclared, Error, names));
    }
    NoneMeansDeclared(c, planPath, entry, summary);
  }

  // ---- The whole report ---------------------------------------------------------------------

  /** A warning for each target host that is still a variable. */
  function UnresolvedTargets(targets: seq<Jmx.Target>): seq<Finding> {
    if targets == [] then [] else UnresolvedTarget(targets[0]) + UnresolvedTargets(targets[1..])
  }

  function UnresolvedTarget(t: Jmx.Target): seq<Finding> {
    if Mentions(t.host, "${") then [Finding(TargetUnresolved, Warning, [t.host])] else []
  }

  lemma {:induction false} OnlyWarnings(targets: seq<Jmx.Target>)
    ensures forall x :: x in UnresolvedTargets(targets) ==> x.severity == Warning
  {
    if targets != [] {
      OnlyWarnings(targets[1..]);
    }
  }

  predicate NoErrors(findings: seq<Finding>) {
    forall x :: x in findings ==> x.severity != Error
  }

  /** What a commit has to hold for its report to be `ok`. */
  ghost predicate Conforms(c: Checkout, planPath: string) {
    var planFile := JoinPath(c.root, planPath);
    && c.isFile(planFile)
    && c.plan(planFile).Some?
    && match Nearest(c, c.PlanDirectory(planPath))
       case None => true
       case Some(file) =>
         match c.manifest(file)
         case None => false
         case Some(manifest) =>
           match EntryFor(manifest.plans, planPath)
           case None => false
           case Some(entry) => Declares(c, planPath, entry, c.plan(planFile).value)
  }

  // ---- What the report says -----------------------------------------------------------------

  /** The pieces of a path between slashes that are neither empty nor a dot, in order. */
  ghost predicate Components(text: string, parts: seq<string>) {
    Picks(Split(text, '/'), (s: string) => s != "" && s != ".", (s: string) => s, parts)
  }

  /** A path written in a directory: from the root if it starts with a slash, else below the directory. */
  ghost predicate Locates(directory: Path, text: string, p: Path) {
    exists parts :: Components(text, parts) && p == if text != "" && text[0] == '/' then parts else directory + parts
  }

  /** The last component, if there is any. */
  ghost predicate NameIs(text: string, name: string) {
    exists parts :: Components(text, parts) && name == if parts == [] then "" else parts[|parts| - 1]
  }

  lemma {:induction false} KeptAre(parts: seq<string>)
    ensures Picks(parts, (s: string) => s != "" && s != ".", (s: string) => s, Kept(parts))
  {
    var keep, out := (s: string) => s != "" && s != ".", (s: string) => s;
    hide Picks;
    if parts == [] {
      PicksNone(keep, out);
    } else {
      var front, last := parts[..|parts| - 1], parts[|parts| - 1];
      KeptAre(front);
      PicksOne(front, last, keep, out, Kept(front));
      assert parts == front + [last];
      KeptLast(front, last);
    }
  }

  lemma {:induction false} KeptLast(front: seq<string>, last: string)
    ensures Kept(front + [last]) == if last != "" && last != "." then Kept(front) + [last] else Kept(front)
  {
    if front == [] {
      assert (front + [last])[1..] == [];
    } else {
      assert (front + [last])[1..] == front[1..] + [last];
      KeptLast(front[1..], last);
    }
  }

  lemma PathIsComponents(text: string)
    ensures Components(text, PathOf(text).parts)
    ensures PathOf(text).Absolute? <==> text != "" && text[0] == '/'
  {
    KeptAre(Split(text, '/'));
    hide Picks, Kept, Split;
    assert StartsWith(text, "/") <==> text != "" && text[0] == '/' by {
      if text != "" {
        assert "/" <= text <==> text[0] == "/"[0];
      }
    }
  }

  lemma JoinLocates(directory: Path, text: string)
    ensures Locates(directory, text, JoinPath(directory, text))
  {
    PathIsComponents(text);
    hide Components;
  }

  lemma BaseNameIs(text: string)
    ensures NameIs(text, BaseName(text))
  {
    PathIsComponents(text);
    hide Components;
  }

  /** Only the order of finding them is free: a text has one list of components. */
  lemma ComponentsOnce(text: string, a: seq<string>, b: seq<string>)
    requires Components(text, a) && Components(text, b)
    ensures a == b
  {
    var keep, out := (s: string) => s != "" && s != ".", (s: string) => s;
    PickedOnce(Split(text, '/'), keep, out, a, b);
  }

  /** The manifest a plan in this directory goes by. Inside the root it is the deepest there is between the root and the
      directory; outside, only the directory itself counts. */
  ghost predicate GoesBy(c: Checkout, directory: Path, file: Option<Path>) {
    if c.root <= directory then
      match file
      case None => forall d :: d <= directory && |d| >= |c.root| ==> !c.isFile(d + ["plimsoll.yaml"])
      case Some(f) =>
        exists d :: d <= directory && |d| >= |c.root| && f == d + ["plimsoll.yaml"] && c.isFile(f)
                    && forall e :: e <= directory && |e| > |d| ==> !c.isFile(e + ["plimsoll.yaml"])
    else
      file == if c.isFile(directory + ["plimsoll.yaml"]) then Some(directory + ["plimsoll.yaml"]) else None
  }

  lemma NearestGoesBy(c: Checkout, directory: Path)
    ensures GoesBy(c, directory, Nearest(c, directory))
  {
    assert MANIFEST_NAME == "plimsoll.yaml";
    if c.root <= directory {
      NearestInside(c, directory);
    } else {
      NearestOutside(c, directory);
    }
    hide Nearest, MANIFEST_NAME;
  }

  /** A warning for each target whose host is not known yet, in the order of the targets. */
  ghost predicate Warns(findings: seq<Finding>, targets: seq<Jmx.Target>) {
    Picks(targets, (t: Jmx.Target) => HasDollarBrace(t.host),
          (t: Jmx.Target) => Finding(TargetUnresolved, Warning, [t.host]), findings)
  }

  lemma {:induction false} TargetsWarn(targets: seq<Jmx.Target>)
    ensures Warns(UnresolvedTargets(targets), targets)
  {
    var keep, out := (t: Jmx.Target) => HasDollarBrace(t.host),
                     (t: Jmx.Target) => Finding(TargetUnresolved, Warning, [t.host]);
    hide Picks, HasDollarBrace, Mentions;
    if targets == [] {
      PicksNone(keep, out);
    } else {
      var front, last := targets[..|targets| - 1], targets[|targets| - 1];
      TargetsWarn(front);
      PicksOne(front, last, keep, out, UnresolvedTargets(front));
      assert targets == front + [last];
      LastTarget(front, last);
      MentionsIs(last.host);
      var before := UnresolvedTargets(front);
      assert UnresolvedTargets(targets) == if keep(last) then before + [out(last)] else before;
    }
  }

  lemma {:induction false} LastTarget(front: seq<Jmx.Target>, last: Jmx.Target)
    ensures UnresolvedTargets(front + [last]) == UnresolvedTargets(front) + UnresolvedTarget(last)
  {
    hide UnresolvedTarget;
    if front == [] {
      assert (front + [last])[1..] == [] && UnresolvedTargets([]) == [];
    } else {
      assert (front + [last])[1..] == front[1..] + [last];
      LastTarget(front[1..], last);
    }
  }

  /** The file, as written in this directory, is in the checkout. */
  ghost predicate PresentAt(c: Checkout, directory: Path, file: string) {
    exists p :: Locates(directory, file, p) && c.isFile(p)
  }

  lemma LocatesOnce(directory: Path, text: string, p: Path)
    ensures Locates(directory, text, p) <==> p == JoinPath(directory, text)
  {
    JoinLocates(directory, text);
    if Locates(directory, text, p) {
      PathIsComponents(text);
      var parts :| Components(text, parts) && p == if text != "" && text[0] == '/' then parts else directory + parts;
      ComponentsOnce(text, parts, PathOf(text).parts);
    }
    hide Components;
  }

  lemma PresentIs(c: Checkout, planPath: string, file: string)
    ensures PresentAt(c, c.PlanDirectory(planPath), file) <==> c.Present(planPath, file)
  {
    var directory := c.PlanDirectory(planPath);
    LocatesOnce(directory, file, JoinPath(directory, file));
    hide Locates;
    if p :| Locates(directory, file, p) && c.isFile(p) {
      LocatesOnce(directory, file, p);
    }
  }

  /** What an entry of the manifest leaves to be found: declared files that are absent, then files the plan reads that
      are neither declared nor there, then one finding for all variables that are not declared. */
  ghost predicate SaysOfEntry(findings: seq<Finding>, c: Checkout, directory: Path, entry: ManifestPlan,
                              summary: Jmx.PlanSummary) {
    exists missing, loose, last ::
      && findings == missing + loose + last
      && Picks(entry.data, (f: string) => !PresentAt(c, directory, f),
               (f: string) => Finding(DataFileMissing, Error, [f]), missing)
      && Picks(summary.dataFiles, (f: string) => f !in entry.data && !PresentAt(c, directory, f),
               (f: string) => Finding(DataFileUndeclared, Error, [f]), loose)
      && SaysOfVariables(last, entry, summary)
  }

  ghost predicate SaysOfVariables(findings: seq<Finding>, entry: ManifestPlan, summary: Jmx.PlanSummary) {
    if forall v :: v in summary.variables ==> v in entry.variables then findings == []
    else exists names ::
      && findings == [Finding(VariableNotDeclared, Error, names)]
      && Strictly(StringBefore, names) && forall v :: v in names <==> v in summary.variables && v !in entry.variables
  }

  lemma {:induction false} MissingPicked(c: Checkout, planPath: string, data: seq<string>)
    ensures Picks(data, (f: string) => !PresentAt(c, c.PlanDirectory(planPath), f),
                  (f: string) => Finding(DataFileMissing, Error, [f]), MissingFindings(c, planPath, data))
  {
    var keep, out := (f: string) => !PresentAt(c, c.PlanDirectory(planPath), f),
                     (f: string) => Finding(DataFileMissing, Error, [f]);
    hide Picks, PresentAt;
    if data == [] {
      PicksNone(keep, out);
    } else {
      var front, last := data[..|data| - 1], data[|data| - 1];
      MissingPicked(c, planPath, front);
      PicksOne(front, last, keep, out, MissingFindings(c, planPath, front));
      PresentIs(c, planPath, last);
      assert data == front + [last];
      var before := MissingFindings(c, planPath, front);
      assert MissingFindings(c, planPath, data) == if keep(last) then before + [out(last)] else before;
    }
  }

  lemma {:induction false} LoosePicked(c: Checkout, planPath: string, declared: seq<string>, files: seq<string>)
    ensures Picks(files, (f: string) => f !in declared && !PresentAt(c, c.PlanDirectory(planPath), f),
                  (f: string) => Finding(DataFileUndeclared, Error, [f]), LooseFindings(c, planPath, declared, files))
  {
    var keep, out := (f: string) => f !in declared && !PresentAt(c, c.PlanDirectory(planPath), f),
                     (f: string) => Finding(DataFileUndeclared, Error, [f]);
    hide Picks, PresentAt;
    if files == [] {
      PicksNone(keep, out);
    } else {
      var front, last := files[..|files| - 1], files[|files| - 1];
      LoosePicked(c, planPath, declared, front);
      PicksOne(front, last, keep, out, LooseFindings(c, planPath, declared, front));
      PresentIs(c, planPath, last);
      assert files == front + [last];
      var before := LooseFindings(c, planPath, declared, front);
      assert LooseFindings(c, planPath, declared, files) == if keep(last) then before + [out(last)] else before;
    }
  }

  lemma EntrySays(c: Checkout, planPath: string, entry: ManifestPlan, summary: Jmx.PlanSummary)
    ensures SaysOfEntry(FindingsOf(c, planPath, entry, summary), c, c.PlanDirectory(planPath), entry, summary)
  {
    hide Picks, PresentAt, MissingFindings, LooseFindings, SaysOfVariables, VariableFindings, Undeclared;
    MissingPicked(c, planPath, entry.data);
    LoosePicked(c, planPath, entry.data, summary.dataFiles);
    VariablesSay(entry, summary);
  }

  lemma VariablesSay(entry: ManifestPlan, summary: Jmx.PlanSummary)
    ensures SaysOfVariables(VariableFindings(Undeclared(entry, summary)), entry, summary)
  {
    var undeclared := Undeclared(entry, summary);
    if undeclared != {} {
      var v :| v in undeclared;
      assert v in summary.variables && v !in entry.variables;
      assert VariableFindings(undeclared) == [Finding(VariableNotDeclared, Error, SortedStrings(undeclared))];
    } else {
      assert forall v :: v in summary.variables && v !in entry.variables ==> v in undeclared;
    }
  }

  ghost predicate SameName(a: string, b: string) {
    exists name :: NameIs(a, name) && NameIs(b, name)
  }

  lemma SameNameIs(a: string, b: string)
    ensures SameName(a, b) <==> BaseName(a) == BaseName(b)
  {
    BaseNameIs(a);
    BaseNameIs(b);
    forall name ensures NameIs(a, name) ==> name == BaseName(a) {
      NameOnce(a, name);
    }
    forall name ensures NameIs(b, name) ==> name == BaseName(b) {
      NameOnce(b, name);
    }
    hide NameIs, BaseName;
  }

  lemma NameOnce(text: string, name: string)
    ensures NameIs(text, name) ==> name == BaseName(text)
  {
    hide Components, PathOf;
    if parts :| Components(text, parts) && name == if parts == [] then "" else parts[|parts| - 1] {
      PathIsComponents(text);
      ComponentsOnce(text, parts, PathOf(text).parts);
    }
  }

  /** The first entry with the file name of the plan. */
  ghost predicate FirstNamed(plans: seq<ManifestPlan>, planPath: string, entry: Option<ManifestPlan>) {
    match entry
    case None => forall i :: 0 <= i < |plans| ==> !SameName(plans[i].path, planPath)
    case Some(e) =>
      exists i :: 0 <= i < |plans| && plans[i] == e && SameName(e.path, planPath)
                  && forall j :: 0 <= j < i ==> !SameName(plans[j].path, planPath)
  }

  lemma EntryIsFirstNamed(plans: seq<ManifestPlan>, planPath: string)
    ensures FirstNamed(plans, planPath, EntryFor(plans, planPath))
  {
    EntryIsFirst(plans, planPath);
    forall i | 0 <= i < |plans| ensures SameName(plans[i].path, planPath)
                                    <==> BaseName(plans[i].path) == BaseName(planPath) {
      SameNameIs(plans[i].path, planPath);
    }
    hide SameName, BaseName, EntryFor;
    assert forall i :: 0 <= i < |plans| ==> plans[i] in plans;
  }

  /** What the manifest says of the plan, from the directory of the plan. */
  ghost predicate SaysOfManifest(findings: seq<Finding>, c: Checkout, directory: Path, manifest: Manifest,
                                 planPath: string, summary: Jmx.PlanSummary) {
    exists entry :: FirstNamed(manifest.plans, planPath, entry) &&
      match entry
      case None => findings == [Finding(PlanNotDeclared, Error, [planPath])]
      case Some(e) => SaysOfEntry(findings, c, directory, e, summary)
  }

  /** What the manifest file, if any, adds to the report. */
  ghost predicate SaysOfFile(findings: seq<Finding>, plugins: seq<Plugin>, c: Checkout, directory: Path,
                             file: Option<Path>, planPath: string, summary: Option<Jmx.PlanSummary>) {
    match file
    case None => findings == [] && plugins == []
    case Some(f) =>
      match c.manifest(f)
      case None => findings == [Finding(ManifestInvalid, Error, [])] && plugins == []
      case Some(m) =>
        && plugins == m.plugins
        && if summary.None? then findings == []
           else SaysOfManifest(findings, c, directory, m, planPath, summary.value)
  }

  ghost function DirectoryOf(file: Path): Path {
    if file == [] then [] else file[..|file| - 1]
  }

  /** The whole report on a checkout. */
  ghost predicate Reports(report: VerifyReport, c: Checkout, planPath: string) {
    && (report.ok <==> forall x :: x in report.findings ==> x.severity != Error)
    && exists planFile :: Locates(c.root, planPath, planFile) &&
         if !c.isFile(planFile) then
           report.findings == [Finding(PlanMissing, Error, [planPath])] && report.plan == None && report.plugins == []
         else report.plan == c.plan(planFile) && ReportsPlan(report, c, planPath, DirectoryOf(planFile))
  }

  /** The plan's own findings and then the manifest's. */
  ghost predicate ReportsPlan(report: VerifyReport, c: Checkout, planPath: string, directory: Path) {
    exists first, rest, file ::
      && report.findings == first + rest
      && (if report.plan.None? then first == [Finding(PlanUnparseable, Error, [])]
          else Warns(first, report.plan.value.targets))
      && GoesBy(c, directory, file)
      && SaysOfFile(rest, report.plugins, c, directory, file, planPath, report.plan)
  }

  method CheckManifest(c: Checkout, planPath: string, summary: Option<Jmx.PlanSummary>)
    returns (findings: seq<Finding>, plugins: seq<Plugin>)
    ensures SaysOfFile(findings, plugins, c, c.PlanDirectory(planPath), Nearest(c, c.PlanDirectory(planPath)), planPath,
                       summary)
    ensures NoErrors(findings) <==>
      match Nearest(c, c.PlanDirectory(planPath))
      case None => true
      case Some(file) =>
        match c.manifest(file)
        case None => false
        case Some(manifest) => summary.Some? ==>
          match EntryFor(manifest.plans, planPath)
          case None => false
          case Some(entry) => Declares(c, planPath, entry, summary.value)
  {
    findings, plugins := [], [];
    var file := FindManifest(c, planPath);
    if file.Some? {
      match c.manifest(file.value)
      case None =>
        findings := [Finding(ManifestInvalid, Error, [])];
      case Some(manifest) =>
        plugins := manifest.plugins;
        if summary.Some? {
          findings := ManifestFindings(c, manifest, planPath, summary.value);
          assert findings != [] ==> findings[0] in findings;
        }
    }
  }

  method Run(resolved: Option<string>, fetched: Option<Checkout>, planPath: string)
    returns (report: Result<VerifyReport, Unreachable>)
    ensures report.Err? <==> resolved.None? || fetched.None?
    ensures report.Ok? ==> report.value.commitSha == resolved.value
    ensures report.Ok? ==> (report.value.ok <==> NoErrors(report.value.findings))
    ensures report.Ok? ==> (report.value.ok <==> Conforms(fetched.value, planPath))
    ensures report.Ok? ==>
      report.value.plan == if fetched.value.isFile(JoinPath(fetched.value.root, planPath))
                           then fetched.value.plan(JoinPath(fetched.value.root, planPath)) else None
    ensures report.Ok? ==> Reports(report.value, fetched.value, planPath)
  {
    hide SaysOfFile, GoesBy, Locates, Warns, Nearest;
    if resolved.None? || fetched.None? {
      return Err(RepoUnreachable);
    }
    var c := fetched.value;
    var planFile := JoinPath(c.root, planPath);
    JoinLocates(c.root, planPath);
    if !c.isFile(planFile) {
      var missing := Finding(PlanMissing, Error, [planPath]);
      assert missing in [missing];
      return Ok(VerifyReport(false, resolved.value, [missing], None, []));
    }
    var summary := c.plan(planFile);
    var first := if summary.None? then [Finding(PlanUnparseable, Error, [])]
      else UnresolvedTargets(summary.value.targets);
    if summary.Some? {
      OnlyWarnings(summary.value.targets);
    }
    var rest, plugins := CheckManifest(c, planPath, summary);
    var findings := first + rest;
    assert NoErrors(findings) <==> NoErrors(first) && NoErrors(rest);
    assert summary.None? ==> first[0] in first;
    report := Ok(VerifyReport(NoErrors(findings), resolved.value, findings, summary, plugins));
    NearestGoesBy(c, c.PlanDirectory(planPath));
    if summary.Some? {
      TargetsWarn(summary.value.targets);
    }
    assert DirectoryOf(planFile) == c.PlanDirectory(planPath);
    assert ReportsPlan(report.value, c, planPath, DirectoryOf(planFile));
  }

  /** When a manifest was found and the report is `ok`, every file the plan reads is there and every variable is
      declared: a declared file is checked by the first rule, an undeclared one by the second. */
  lemma ConformingPlanIsComplete(c: Checkout, planPath: string)
    requires Conforms(c, planPath) && Nearest(c, c.PlanDirectory(planPath)).Some?
    ensures var summary := c.plan(JoinPath(c.root, planPath)).value;
      && (forall f :: f in summary.dataFiles ==> c.Present(planPath, f))
      && exists entry :: entry in c.manifest(Nearest(c, c.PlanDirectory(planPath)).value).value.plans
           && BaseName(entry.path) == BaseName(planPath)
           && forall v :: v in summary.variables ==> v in entry.variables
  {
    var manifest := c.manifest(Nearest(c, c.PlanDirectory(planPath)).value).value;
    EntryIsFirst(manifest.plans, planPath);
  }

  lemma {:induction false} EntryIsFirst(plans: seq<ManifestPlan>, planPath: string)
    ensures EntryFor(plans, planPath).Some? ==>
      exists i :: 0 <= i < |plans| && plans[i] == EntryFor(plans, planPath).value
        && BaseName(plans[i].path) == BaseName(planPath)
        && forall j :: 0 <= j < i ==> BaseName(plans[j].path) != BaseName(planPath)
    ensures EntryFor(plans, planPath).None? ==> forall p :: p in plans ==> BaseName(p.path) != BaseName(planPath)
  {
    if plans != [] && BaseName(plans[0].path) != BaseName(planPath) {
      EntryIsFirst(plans[1..], planPath);
      if EntryFor(plans, planPath).Some? {
        var i :| 0 <= i < |plans| - 1 && plans[1..][i] == EntryFor(plans, planPath).value
          && BaseName(plans[1..][i].path) == BaseName(planPath)
          && forall j :: 0 <= j < i ==> BaseName(plans[1..][j].path) != BaseName(planPath);
        assert plans[i + 1] == plans[1..][i];
        forall j | 0 <= j < i + 1 ensures BaseName(plans[j].path) != BaseName(planPath) {
          if j > 0 {
            assert plans[j] == plans[1..][j - 1];
          }
        }
      }
    }
  }
}
