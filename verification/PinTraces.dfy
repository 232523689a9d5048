/** Where the commit of a pinned row comes from, in every interleaving: the ref the request asked for, or else the
    repository's own, at the moments the request looked. */
module PinTraces {
  import opened Wrappers
  import opened Tables
  import opened Pinning
  import Jmx

  ghost function At(content: Content, s0: State, run: seq<Action>, i: nat): State
    requires i <= |run|
  {
    Exec(content, s0, run[..i])
  }

  /** Action `i` is the request's first SELECT: it takes the plan path of the repository as it is then, and the ref
      asked for, or the repository's default if none or an empty one was asked for. */
  ghost predicate Chose(content: Content, s0: State, run: seq<Action>, i: nat, t: RequestId, asked: Option<string>,
                        repo: RepoId, path: string, ref: string)
  {
    && i < |run| && run[i].Run? && run[i].t == t
    && var s := At(content, s0, run, i);
       && repo in s.repos && path == s.repos[repo].planPath
       && ref == if asked.Some? && asked.value != "" then asked.value else s.repos[repo].defaultRef
  }

  /** Action `j` is its network half: Git resolves that ref to this commit. */
  ghost predicate Resolved(run: seq<Action>, j: nat, t: RequestId, repo: RepoId, ref: string, sha: Sha) {
    && j < |run| && run[j].Run? && run[j].t == t
    && run[j].outside.Some? && run[j].outside.value.resolve(repo, ref) == Some(sha)
  }

  ghost predicate ChoseSome(content: Content, s0: State, run: seq<Action>, t: RequestId, x: Pin, path: string,
                            ref: string) {
    exists i: nat :: Chose(content, s0, run, i, t, x.ref, x.repo, path, ref)
  }

  /** The commit is what the ref chose at one moment resolved to at a later one. */
  ghost predicate From(content: Content, s0: State, run: seq<Action>, t: RequestId, x: Pin, path: string, sha: Sha) {
    exists i: nat, j: nat, ref :: i < j && Chose(content, s0, run, i, t, x.ref, x.repo, path, ref)
                                  && Resolved(run, j, t, x.repo, ref, sha)
  }

  /** The row a request works on, once it has resolved its ref. */
  function Working(s: State, x: Pin): Option<Version> {
    match x.phase
    case Looking(candidate) => Some(candidate)
    case Inserting(candidate) => Some(candidate)
    case Auditing(id) => if id in x.rows.puts then Some(x.rows.puts[id]) else None
    case Ending(created, id) =>
      if created then if id in x.rows.puts then Some(x.rows.puts[id]) else None
      else if id in s.rows then Some(s.rows[id]) else None
    case Responded(_, id) => if id in s.rows then Some(s.rows[id]) else None
    case _ => None
  }

  ghost predicate Traced(content: Content, s0: State, run: seq<Action>, s: State, t: RequestId, x: Pin) {
    && (x.phase.Network? ==> ChoseSome(content, s0, run, t, x, x.phase.path, x.phase.ref))
    && (Working(s, x).Some? ==>
          From(content, s0, run, t, x, Working(s, x).value.path, Working(s, x).value.sha))
  }

  lemma ChoseStays(content: Content, s0: State, front: seq<Action>, a: Action, i: nat, t: RequestId,
                   asked: Option<string>, repo: RepoId, path: string, ref: string)
    requires Chose(content, s0, front, i, t, asked, repo, path, ref)
    ensures Chose(content, s0, front + [a], i, t, asked, repo, path, ref)
  {
    assert (front + [a])[..i] == front[..i];
  }

  lemma FromStays(content: Content, s0: State, front: seq<Action>, a: Action, t: RequestId, x: Pin, y: Pin,
                  path: string, sha: Sha)
    requires From(content, s0, front, t, x, path, sha) && y.ref == x.ref && y.repo == x.repo
    ensures From(content, s0, front + [a], t, y, path, sha)
  {
    hide Chose;
    var i: nat, j: nat, ref :| i < j && Chose(content, s0, front, i, t, x.ref, x.repo, path, ref)
                              && Resolved(front, j, t, x.repo, ref, sha);
    ChoseStays(content, s0, front, a, i, t, x.ref, x.repo, path, ref);
    assert Resolved(front + [a], j, t, y.repo, ref, sha);
  }

  lemma ChoseSomeStays(content: Content, s0: State, front: seq<Action>, a: Action, t: RequestId, x: Pin, y: Pin,
                       path: string, ref: string)
    requires ChoseSome(content, s0, front, t, x, path, ref) && y.ref == x.ref && y.repo == x.repo
    ensures ChoseSome(content, s0, front + [a], t, y, path, ref)
  {
    hide Chose;
    var i: nat :| Chose(content, s0, front, i, t, x.ref, x.repo, path, ref);
    ChoseStays(content, s0, front, a, i, t, x.ref, x.repo, path, ref);
  }

  /** What a step does to the work of the request: nothing, or what its phase says. */
  ghost predicate Works(s: State, s': State, x: Pin, y: Pin, a: Action) {
    && y.ref == x.ref && y.repo == x.repo
    && (y.phase.Network? ==>
          || (x.phase.Network? && x.phase == y.phase)
          || (x.phase.Reading? && a.Run? && x.repo in s.repos && y.phase.path == s.repos[x.repo].planPath
              && y.phase.ref == if x.ref.Some? && x.ref.value != "" then x.ref.value else s.repos[x.repo].defaultRef))
    && (Working(s', y).Some? ==>
          || SameWork(Working(s, x), Working(s', y).value)
          || (x.phase.Network? && a.Run? && a.outside.Some? && Working(s', y).value.path == x.phase.path
              && a.outside.value.resolve(x.repo, x.phase.ref) == Some(Working(s', y).value.sha)))
  }

  predicate SameWork(before: Option<Version>, v: Version) {
    before.Some? && before.value.path == v.path && before.value.sha == v.sha
  }

  lemma EarlyWorks(content: Content, s: State, t: RequestId, outside: Option<Outside>, pick: Option<RequestId>)
    requires t in s.pins && (s.pins[t].phase.Reading? || s.pins[t].phase.Network?)
    ensures var s' := RunStep(content, s, t, outside, pick);
      t in s'.pins && Works(s, s', s.pins[t], s'.pins[t], Run(t, outside, pick))
  {
    hide Resolves;
    var x := s.pins[t];
    if x.phase.Network? && outside.Some? {
      var sha := outside.value.resolve(x.repo, x.phase.ref);
      if sha.Some? && Resolves(content, x.repo, x.phase.path, sha.value, outside.value.summary) {
        CandidateIsTruthful(content, x.repo, x.phase.path, sha.value, outside.value.summary);
      }
    }
    hide Candidate;
  }

  lemma LookingWorks(content: Content, s: State, t: RequestId, outside: Option<Outside>, pick: Option<RequestId>)
    requires t in s.pins && (s.pins[t].phase.Looking? || s.pins[t].phase.Inserting?)
    ensures var s' := RunStep(content, s, t, outside, pick);
      t in s'.pins && Works(s, s', s.pins[t], s'.pins[t], Run(t, outside, pick))
  {
    hide KeyLocked;
    var x := s.pins[t];
    if x.phase.Looking? && pick.Some? && pick.value in ByCommit(s.rows, x.phase.candidate) {
      assert SameKey(s.rows[pick.value], x.phase.candidate);
    }
    hide ByCommit;
  }

  lemma LateWorks(content: Content, s: State, t: RequestId, outside: Option<Outside>, pick: Option<RequestId>)
    requires t in s.pins && PinOk(content, s, t, s.pins[t])
    requires s.pins[t].phase.Auditing? || s.pins[t].phase.Ending? || Over(s.pins[t].phase)
    ensures var s' := RunStep(content, s, t, outside, pick);
      t in s'.pins && Works(s, s', s.pins[t], s'.pins[t], Run(t, outside, pick))
  {
    hide Truthful, KeyLocked, ByCommit;
    SeeClean(s.rows);
  }

  lemma RunWorks(content: Content, s: State, t: RequestId, outside: Option<Outside>, pick: Option<RequestId>)
    requires t in s.pins && PinOk(content, s, t, s.pins[t])
    ensures var s' := RunStep(content, s, t, outside, pick);
      t in s'.pins && Works(s, s', s.pins[t], s'.pins[t], Run(t, outside, pick))
  {
    hide RunStep, Works, PinOk;
    match s.pins[t].phase
    case Reading | Network(_, _) => EarlyWorks(content, s, t, outside, pick);
    case Looking(_) | Inserting(_) => LookingWorks(content, s, t, outside, pick);
    case _ => LateWorks(content, s, t, outside, pick);
  }

  /** A step of another request, or of nobody, leaves the request's work alone. */
  lemma OthersWork(content: Content, s: State, a: Action, t: RequestId)
    requires Inv(content, s) && t in s.pins && !(a.Run? && a.t == t)
    ensures t in Step(content, s, a).pins
    ensures Rests(s, Step(content, s, a), s.pins[t], Step(content, s, a).pins[t])
  {
    StepKeeps(content, s, a);
    OthersPins(content, s, a, t);
    assert PinOk(content, s, t, s.pins[t]);
    hide Step, Inv, PinOk, Rests;
    RestsUnchanged(content, s, Step(content, s, a), t, s.pins[t], Step(content, s, a).pins[t]);
  }

  lemma RestsUnchanged(content: Content, s: State, s': State, t: RequestId, x: Pin, y: Pin)
    requires PinOk(content, s, t, x) && Extends(s.rows, s'.rows)
    requires y == x || (y.phase.RolledBack? && y.ref == x.ref && y.repo == x.repo)
    ensures Rests(s, s', x, y)
  {
    hide Truthful, KeyLocked, ByCommit;
  }

  ghost predicate Rests(s: State, s': State, x: Pin, y: Pin) {
    && y.ref == x.ref && y.repo == x.repo
    && (y.phase.Network? ==> x.phase == y.phase)
    && (Working(s', y).Some? ==> SameWork(Working(s, x), Working(s', y).value))
  }

  lemma OthersPins(content: Content, s: State, a: Action, t: RequestId)
    requires t in s.pins && !(a.Run? && a.t == t)
    ensures t in Step(content, s, a).pins
    ensures var x, y := s.pins[t], Step(content, s, a).pins[t];
      if a == Fail(t) && !Over(x.phase) then y.phase.RolledBack? && y.ref == x.ref && y.repo == x.repo else y == x
  {
    hide Resolves, KeyLocked, ByCommit;
  }

  lemma WorkTraced(content: Content, s0: State, front: seq<Action>, a: Action, s: State, s': State, t: RequestId,
                   x: Pin, y: Pin)
    requires s == Exec(content, s0, front) && Traced(content, s0, front, s, t, x) && Works(s, s', x, y, a)
    requires a.Run? && a.t == t
    ensures Traced(content, s0, front + [a], s', t, y)
  {
    var run, n := front + [a], |front|;
    assert run[..n] == front;
    hide Exec, From, ChoseSome;
    if y.phase.Network? {
      if x.phase.Network? {
        ChoseSomeStays(content, s0, front, a, t, x, y, y.phase.path, y.phase.ref);
      } else {
        assert Chose(content, s0, run, n, t, y.ref, y.repo, y.phase.path, y.phase.ref);
        ChosenNow(content, s0, run, n, t, y, y.phase.path, y.phase.ref);
      }
    }
    if Working(s', y).Some? {
      var v := Working(s', y).value;
      if SameWork(Working(s, x), v) {
        FromStays(content, s0, front, a, t, x, y, v.path, v.sha);
      } else {
        assert Resolved(run, n, t, y.repo, x.phase.ref, v.sha);
        ResolvedNow(content, s0, front, a, t, x, y, x.phase.path, x.phase.ref, v.sha);
      }
    }
  }

  lemma ChosenNow(content: Content, s0: State, run: seq<Action>, i: nat, t: RequestId, y: Pin, path: string,
                  ref: string)
    requires Chose(content, s0, run, i, t, y.ref, y.repo, path, ref)
    ensures ChoseSome(content, s0, run, t, y, path, ref)
  {
  }

  lemma ResolvedNow(content: Content, s0: State, front: seq<Action>, a: Action, t: RequestId, x: Pin, y: Pin,
                    path: string, ref: string, sha: Sha)
    requires ChoseSome(content, s0, front, t, x, path, ref) && y.ref == x.ref && y.repo == x.repo
    requires Resolved(front + [a], |front|, t, y.repo, ref, sha)
    ensures From(content, s0, front + [a], t, y, path, sha)
  {
    var i: nat :| Chose(content, s0, front, i, t, x.ref, x.repo, path, ref);
    ChoseStays(content, s0, front, a, i, t, x.ref, x.repo, path, ref);
    hide Chose, Exec;
    ChoseBefore(content, s0, front, i, t, x.ref, x.repo, path, ref);
  }

  lemma ChoseBefore(content: Content, s0: State, front: seq<Action>, i: nat, t: RequestId, asked: Option<string>,
                    repo: RepoId, path: string, ref: string)
    requires Chose(content, s0, front, i, t, asked, repo, path, ref)
    ensures i < |front|
  {
  }

  lemma {:induction false} EveryPinTraced(content: Content, s0: State, run: seq<Action>, t: RequestId)
    requires Init(s0) && t in Exec(content, s0, run).pins
    ensures Traced(content, s0, run, Exec(content, s0, run), t, Exec(content, s0, run).pins[t])
  {
    var front, a := run[..|run| - 1], run[|run| - 1];
    assert run == front + [a];
    var s, s' := Exec(content, s0, front), Exec(content, s0, run);
    assert s' == Step(content, s, a);
    Reachable(content, s0, front, 0);
    hide Exec, Traced, Init;
    if t in s.pins {
      EveryPinTraced(content, s0, front, t);
      StepTraced(content, s0, front, a, s, t);
    } else {
      NewTraced(content, s0, run, a, s, t);
    }
  }

  lemma StepTraced(content: Content, s0: State, front: seq<Action>, a: Action, s: State, t: RequestId)
    requires s == Exec(content, s0, front) && Inv(content, s) && t in s.pins
    requires Traced(content, s0, front, s, t, s.pins[t])
    ensures t in Step(content, s, a).pins
    ensures Traced(content, s0, front + [a], Step(content, s, a), t, Step(content, s, a).pins[t])
  {
    assert PinOk(content, s, t, s.pins[t]);
    hide Traced, Exec, Works, Rests, PinOk, RunStep;
    if a.Run? && a.t == t {
      RunWorks(content, s, t, a.outside, a.pick);
      WorkTraced(content, s0, front, a, s, Step(content, s, a), t, s.pins[t], Step(content, s, a).pins[t]);
    } else {
      OthersWork(content, s, a, t);
      OtherTraced(content, s0, front, a, s, Step(content, s, a), t, s.pins[t], Step(content, s, a).pins[t]);
    }
  }

  lemma OtherTraced(content: Content, s0: State, front: seq<Action>, a: Action, s: State, s': State, t: RequestId,
                    x: Pin, y: Pin)
    requires Traced(content, s0, front, s, t, x) && Rests(s, s', x, y)
    ensures Traced(content, s0, front + [a], s', t, y)
  {
    hide From, ChoseSome;
    if y.phase.Network? {
      ChoseSomeStays(content, s0, front, a, t, x, y, y.phase.path, y.phase.ref);
    }
    if Working(s', y).Some? {
      FromStays(content, s0, front, a, t, x, y, Working(s', y).value.path, Working(s', y).value.sha);
    }
  }

  lemma NewTraced(content: Content, s0: State, run: seq<Action>, a: Action, s: State, t: RequestId)
    requires t !in s.pins && t in Step(content, s, a).pins
    ensures Traced(content, s0, run, Step(content, s, a), t, Step(content, s, a).pins[t])
  {
    if a.Run? && a.t in s.pins {
      RunAddsNobody(content, s, a.t, a.outside, a.pick);
    }
    hide RunStep, From, ChoseSome;
  }

  lemma RunAddsNobody(content: Content, s: State, t: RequestId, outside: Option<Outside>, pick: Option<RequestId>)
    requires t in s.pins
    ensures RunStep(content, s, t, outside, pick).pins.Keys == s.pins.Keys
  {
    hide Resolves, Candidate, KeyLocked, ByCommit;
  }

  /** In every interleaving the row a request is answered with is at the commit that the ref it asked for, or else the
      repository's default ref when it looked, resolved to; and at the plan path the repository had then. */
  lemma PinnedWhatWasAsked(content: Content, s0: State, run: seq<Action>, t: RequestId)
    requires Init(s0)
    requires t in Exec(content, s0, run).pins && Exec(content, s0, run).pins[t].phase.Responded?
    ensures var s := Exec(content, s0, run); var x := s.pins[t];
      && x.phase.id in s.rows
      && From(content, s0, run, t, x, s.rows[x.phase.id].path, s.rows[x.phase.id].sha)
  {
    AnswersNameRows(content, s0, run, t);
    EveryPinTraced(content, s0, run, t);
    hide From, Exec;
  }

  // ---- Why a request fails ------------------------------------------------------------------

  /** The network half does not come to a plan: no answer from Git, a ref that names nothing, no plan at its commit, or
      an answer that is not the reading of that plan. */
  ghost predicate NoPlan(content: Content, x: Pin, outside: Option<Outside>)
    requires x.phase.Network?
  {
    || outside.None?
    || outside.value.resolve(x.repo, x.phase.ref).None?
    || var file := content(x.repo, outside.value.resolve(x.repo, x.phase.ref).value, x.phase.path);
       file.None? || !Jmx.Describes(outside.value.summary, Jmx.Seen(file.value.document), file.value.text)
  }

  /** Why a step rolls a request back: the connection failed, there is no such repository, the network half comes to no
      plan, or another request has committed a row for its key. */
  ghost predicate Reason(content: Content, s: State, a: Action, t: RequestId) {
    && t in s.pins
    && (|| (a.Fail? && a.t == t)
        || (a.Run? && a.t == t && s.pins[t].phase.Reading? && s.pins[t].repo !in s.repos)
        || (a.Run? && a.t == t && s.pins[t].phase.Network? && NoPlan(content, s.pins[t], a.outside))
        || (a.Run? && a.t == t && s.pins[t].phase.Inserting?
            && exists id :: id in s.rows && SameKey(s.rows[id], s.pins[t].phase.candidate)))
  }

  lemma RolledBackExactly(content: Content, s: State, a: Action, t: RequestId)
    requires t in s.pins && !Over(s.pins[t].phase)
    ensures t in Step(content, s, a).pins
    ensures Step(content, s, a).pins[t].phase.RolledBack? <==> Reason(content, s, a, t)
  {
    hide Jmx.Describes, Jmx.Seen, RunStep, NoPlan;
    if a.Run? && a.t == t {
      OwnRunRolledBack(content, s, t, a.outside, a.pick);
    } else {
      OthersPins(content, s, a, t);
    }
  }

  lemma OwnRunRolledBack(content: Content, s: State, t: RequestId, outside: Option<Outside>, pick: Option<RequestId>)
    requires t in s.pins && !Over(s.pins[t].phase)
    ensures t in RunStep(content, s, t, outside, pick).pins
    ensures RunStep(content, s, t, outside, pick).pins[t].phase.RolledBack?
       <==> Reason(content, s, Run(t, outside, pick), t)
  {
    var phase := s.pins[t].phase;
    hide RunStep, Reason;
    if phase.Network? {
      NetworkRolledBack(content, s, t, outside, pick);
    } else if phase.Inserting? {
      InsertRolledBack(content, s, t, outside, pick);
    } else {
      ElseRolledBack(content, s, t, outside, pick);
    }
  }

  lemma NetworkRolledBack(content: Content, s: State, t: RequestId, outside: Option<Outside>, pick: Option<RequestId>)
    requires t in s.pins && s.pins[t].phase.Network?
    ensures t in RunStep(content, s, t, outside, pick).pins
    ensures RunStep(content, s, t, outside, pick).pins[t].phase.RolledBack?
       <==> Reason(content, s, Run(t, outside, pick), t)
  {
    hide Jmx.Describes, Jmx.Seen, Candidate;
  }

  lemma InsertRolledBack(content: Content, s: State, t: RequestId, outside: Option<Outside>, pick: Option<RequestId>)
    requires t in s.pins && s.pins[t].phase.Inserting?
    ensures t in RunStep(content, s, t, outside, pick).pins
    ensures RunStep(content, s, t, outside, pick).pins[t].phase.RolledBack?
       <==> Reason(content, s, Run(t, outside, pick), t)
  {
    KeyTaken(s.rows, s.pins[t].phase.candidate);
    hide KeyLocked, ByCommit, SameKey, NoPlan;
  }

  lemma ElseRolledBack(content: Content, s: State, t: RequestId, outside: Option<Outside>, pick: Option<RequestId>)
    requires t in s.pins && !Over(s.pins[t].phase) && !s.pins[t].phase.Network? && !s.pins[t].phase.Inserting?
    ensures t in RunStep(content, s, t, outside, pick).pins
    ensures RunStep(content, s, t, outside, pick).pins[t].phase.RolledBack?
       <==> Reason(content, s, Run(t, outside, pick), t)
  {
    hide ByCommit, NoPlan;
  }

  lemma KeyTaken(rows: map<RequestId, Version>, v: Version)
    ensures ByCommit(rows, v) != {} <==> exists id :: id in rows && SameKey(rows[id], v)
  {
    if id :| id in rows && SameKey(rows[id], v) {
      assert id in ByCommit(rows, v);
    }
  }

  /** Statements left until the answer. */
  function Left(p: Phase): nat {
    match p
    case Reading => 6
    case Network(_, _) => 5
    case Looking(_) => 4
    case Inserting(_) => 3
    case Auditing(_) => 2
    case Ending(_, _) => 1
    case _ => 0
  }

  /** A request waits only while another holds its key. Otherwise each statement brings it nearer its end, whichever row
      the SELECT finds, and the last one answers. */
  lemma StatementAdvances(content: Content, s: State, t: RequestId, outside: Option<Outside>, pick: Option<RequestId>)
    requires t in s.pins && Left(s.pins[t].phase) > 0
    requires s.pins[t].phase.Inserting? ==> !KeyLocked(s, t, s.pins[t].phase.candidate)
    requires s.pins[t].phase.Looking? ==>
      if pick.Some? then pick.value in ByCommit(s.rows, s.pins[t].phase.candidate)
      else ByCommit(s.rows, s.pins[t].phase.candidate) == {}
    ensures var s' := Step(content, s, Run(t, outside, pick));
      && t in s'.pins && Left(s'.pins[t].phase) < Left(s.pins[t].phase)
      && (s.pins[t].phase.Ending? ==> s'.pins[t].phase.Responded?)
      && (s.pins[t].phase.Looking? && pick.Some? ==> s'.pins[t].phase == Ending(false, pick.value))
  {
    hide Resolves, Candidate;
  }

  /** In every run a request that was rolled back was for one of those reasons. */
  lemma {:induction false} EveryFailureHasAReason(content: Content, s0: State, run: seq<Action>, t: RequestId)
    returns (i: nat)
    requires Init(s0) && t in Exec(content, s0, run).pins && Exec(content, s0, run).pins[t].phase.RolledBack?
    ensures i < |run| && Reason(content, Exec(content, s0, run[..i]), run[i], t)
  {
    var front, a := run[..|run| - 1], run[|run| - 1];
    var s := Exec(content, s0, front);
    assert Exec(content, s0, run) == Step(content, s, a);
    hide Reason, Exec, Init;
    if t in s.pins && s.pins[t].phase.RolledBack? {
      i := EveryFailureHasAReason(content, s0, front, t);
      assert front[..i] == run[..i];
    } else {
      i := |front|;
      if t in s.pins {
        if s.pins[t].phase.Responded? {
          RespondedStays(content, s, a, t);
        } else {
          RolledBackExactly(content, s, a, t);
        }
      } else {
        BeginsReading(content, s, a, t);
      }
    }
  }

  lemma RespondedStays(content: Content, s: State, a: Action, t: RequestId)
    requires t in s.pins && s.pins[t].phase.Responded?
    ensures t in Step(content, s, a).pins && Step(content, s, a).pins[t].phase.Responded?
  {
    hide Resolves, Candidate, KeyLocked, ByCommit;
  }

  lemma BeginsReading(content: Content, s: State, a: Action, t: RequestId)
    requires t !in s.pins && t in Step(content, s, a).pins
    ensures Step(content, s, a).pins[t].phase.Reading?
  {
    if a.Run? && a.t in s.pins {
      RunAddsNobody(content, s, a.t, a.outside, a.pick);
    }
    hide RunStep;
  }
}
