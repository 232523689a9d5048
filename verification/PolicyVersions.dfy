/** Allowlists as immutable numbered versions: a change inserts MAX(version) + 1, also when changes race. */
module PolicyVersions {
  import opened Wrappers
  import opened Orders
  import opened Tables
  import TargetPolicy

  type Org = nat

  type TxnId = nat

  /** The unique key of `target_policies`. */
  datatype Key = Key(org: Org, version: int)

  type Rows = map<Key, seq<string>>

  function Versions(rows: Rows, org: Org): set<int> {
    set k | k in rows && k.org == org :: k.version
  }

  ghost predicate IsMax(vs: set<int>, m: int) {
    if vs == {} then m == 0 else m in vs && forall v :: v in vs ==> v <= m
  }

  lemma MaxExists(vs: set<int>)
    ensures exists m :: IsMax(vs, m)
  {
    if vs == {} {
      assert IsMax(vs, 0);
    } else {
      var after := (a: int, b: int) => a > b;
      var m := MinimalExists(after, vs);
      forall v | v in vs ensures v <= m {
        assert !after(v, m);
      }
      assert IsMax(vs, m);
    }
  }

  /** COALESCE(MAX(version), 0) over the organisation's rows. */
  ghost function Newest(rows: Rows, org: Org): (m: int)
    ensures IsMax(Versions(rows, org), m)
  {
    MaxExists(Versions(rows, org));
    var m :| IsMax(Versions(rows, org), m);
    m
  }

  function UpTo(n: int): (vs: set<int>)
    ensures forall v :: v in vs <==> 1 <= v <= n
    decreases if n < 0 then 0 else n
  {
    if n <= 0 then {} else UpTo(n - 1) + {n}
  }

  /** Versions 1 to n, none missing. */
  ghost predicate Dense(rows: Rows) {
    forall org: Org :: Newest(rows, org) >= 0 && Versions(rows, org) == UpTo(Newest(rows, org))
  }

  lemma VersionsHave(rows: Rows, org: Org, v: int)
    ensures v in Versions(rows, org) <==> Key(org, v) in rows
  {
    if v in Versions(rows, org) {
      var k :| k in rows && k.org == org && k.version == v;
      assert k == Key(org, v);
    }
  }

  lemma MaxIs(vs: set<int>, n: int, m: int)
    requires vs == UpTo(n) && n >= 0 && IsMax(vs, m)
    ensures m == n
  {
    if n > 0 {
      assert n in vs;
    } else {
      assert vs == {};
    }
  }

  lemma InsertNextDense(rows: Rows, org: Org, allowlist: seq<string>)
    requires Dense(rows)
    ensures Dense(rows[Key(org, Newest(rows, org) + 1) := allowlist])
    ensures Newest(rows[Key(org, Newest(rows, org) + 1) := allowlist], org) == Newest(rows, org) + 1
  {
    var n := Newest(rows, org);
    var rows' := rows[Key(org, n + 1) := allowlist];
    forall o: Org ensures Versions(rows', o) == UpTo(if o == org then n + 1 else Newest(rows, o)) {
      forall v: int ensures v in Versions(rows', o) <==> v in UpTo(if o == org then n + 1 else Newest(rows, o)) {
        VersionsHave(rows, o, v);
        VersionsHave(rows', o, v);
        assert v in Versions(rows, o) <==> v in UpTo(Newest(rows, o));
      }
    }
    forall o: Org ensures Newest(rows', o) >= 0 && Versions(rows', o) == UpTo(Newest(rows', o)) {
      MaxIs(Versions(rows', o), if o == org then n + 1 else Newest(rows, o), Newest(rows', o));
    }
    MaxIs(Versions(rows', org), n + 1, Newest(rows', org));
  }

  // ---- Replacements that race ---------------------------------------------------------------

  datatype Phase = Validating | Numbering | Inserting(version: int) | Ending | Committed | RolledBack

  datatype Txn = Txn(org: Org, allowlist: seq<string>, phase: Phase, rows: Pending<Key, seq<string>>)

  datatype State = State(rows: Rows, txns: map<TxnId, Txn>)

  datatype Action = Begin(t: TxnId, org: Org, allowlist: seq<string>) | Run(t: TxnId) | Fail(t: TxnId)

  function With(s: State, t: TxnId, x: Txn): State {
    s.(txns := s.txns[t := x])
  }

  function RollBack(s: State, t: TxnId): State
    requires t in s.txns
  {
    With(s, t, s.txns[t].(phase := RolledBack, rows := Clean()))
  }

  ghost predicate KeyLocked(s: State, t: TxnId, k: Key) {
    exists u :: u in s.txns && u != t && Touches(s.txns[u].rows, k)
  }

  /** One INSERT ... SELECT: the version comes from the rows committed when the statement starts; the unique key is
      checked when the row goes in, after any other transaction holding the same key has ended. */
  ghost function RunStep(s: State, t: TxnId): State
    requires t in s.txns
  {
    var x := s.txns[t];
    match x.phase
    case Validating => if TargetPolicy.Accepted(x.allowlist) then With(s, t, x.(phase := Numbering)) else RollBack(s, t)
    case Numbering => With(s, t, x.(phase := Inserting(Newest(See(s.rows, x.rows), x.org) + 1)))
    case Inserting(v) =>
      if Key(x.org, v) in s.rows then RollBack(s, t)
      else if KeyLocked(s, t, Key(x.org, v)) then s
      else With(s, t, x.(rows := Put(x.rows, Key(x.org, v), x.allowlist), phase := Ending))
    case Ending => State(See(s.rows, x.rows), s.txns[t := x.(phase := Committed, rows := Clean())])
    case Committed | RolledBack => s
  }

  ghost function Step(s: State, a: Action): State {
    match a
    case Begin(t, org, allowlist) => if t in s.txns then s else With(s, t, Txn(org, allowlist, Validating, Clean()))
    case Run(t) => if t in s.txns then RunStep(s, t) else s
    case Fail(t) => if t in s.txns && !s.txns[t].phase.Committed? then RollBack(s, t) else s
  }

  ghost function Exec(s: State, run: seq<Action>): State {
    if run == [] then s else Step(Exec(s, run[..|run| - 1]), run[|run| - 1])
  }

  ghost predicate TxnOk(s: State, t: TxnId, x: Txn) {
    match x.phase
    case Validating => x.rows == Clean()
    case Numbering => x.rows == Clean() && TargetPolicy.Accepted(x.allowlist)
    case Inserting(v) => x.rows == Clean() && TargetPolicy.Accepted(x.allowlist) && 1 <= v <= Newest(s.rows, x.org) + 1
    case Ending =>
      && TargetPolicy.Accepted(x.allowlist)
      && exists v :: NextRow(s, t, x, v)
    case Committed | RolledBack => x.rows == Clean()
  }

  /** It has inserted the next version, and nobody else can have. */
  ghost predicate NextRow(s: State, t: TxnId, x: Txn, v: int) {
    && x.rows == Pending(map[Key(x.org, v) := x.allowlist], {})
    && v == Newest(s.rows, x.org) + 1
    && !KeyLocked(s, t, Key(x.org, v))
  }

  ghost predicate AllAccepted(rows: Rows) {
    forall k :: k in rows ==> TargetPolicy.Accepted(rows[k])
  }

  ghost predicate Inv(s: State) {
    && Dense(s.rows)
    && AllAccepted(s.rows)
    && (forall t :: t in s.txns ==> TxnOk(s, t, s.txns[t]))
  }

  /** A step that writes no key. */
  lemma QuietKeeps(s: State, t: TxnId, x: Txn)
    requires Inv(s) && x.rows == Clean() && !x.phase.Ending? && TxnOk(s, t, x)
    ensures Inv(With(s, t, x))
  {
    hide Dense, TargetPolicy.Accepted;
    var s' := With(s, t, x);
    forall u | u in s'.txns ensures TxnOk(s', u, s'.txns[u]) {
      if u != t {
        assert TxnOk(s, u, s.txns[u]);
        if s.txns[u].phase.Ending? {
          var v :| NextRow(s, u, s.txns[u], v);
          assert NextRow(s', u, s.txns[u], v);
        }
      }
    }
  }

  lemma InsertKeeps(s: State, t: TxnId, v: int)
    requires Inv(s) && t in s.txns && s.txns[t].phase == Inserting(v)
    ensures Inv(RunStep(s, t))
  {
    hide TargetPolicy.Accepted;
    var x := s.txns[t];
    var k := Key(x.org, v);
    assert TxnOk(s, t, x);
    if k in s.rows {
      QuietKeeps(s, t, x.(phase := RolledBack, rows := Clean()));
    } else if !KeyLocked(s, t, k) {
      VersionsHave(s.rows, x.org, v);
      assert v == Newest(s.rows, x.org) + 1;
      var y := x.(rows := Put(x.rows, k, x.allowlist), phase := Ending);
      var s' := With(s, t, y);
      forall u | u in s'.txns ensures TxnOk(s', u, s'.txns[u]) {
        if u == t {
          assert NextRow(s', t, y, v);
        } else {
          assert TxnOk(s, u, s.txns[u]);
          if s.txns[u].phase.Ending? {
            var w :| NextRow(s, u, s.txns[u], w);
            assert Touches(s.txns[u].rows, Key(s.txns[u].org, w));
            assert NextRow(s', u, s.txns[u], w);
          }
        }
      }
    }
  }

  lemma CommitKeeps(s: State, t: TxnId)
    requires Inv(s) && t in s.txns && s.txns[t].phase.Ending?
    ensures Inv(RunStep(s, t))
    ensures RunStep(s, t).rows == s.rows[Key(s.txns[t].org, Newest(s.rows, s.txns[t].org) + 1) := s.txns[t].allowlist]
    ensures Key(s.txns[t].org, Newest(s.rows, s.txns[t].org) + 1) !in s.rows
  {
    hide TargetPolicy.Accepted;
    var x, s' := s.txns[t], RunStep(s, t);
    assert TxnOk(s, t, x);
    var v :| NextRow(s, t, x, v);
    assert s'.rows == s.rows[Key(x.org, v) := x.allowlist];
    VersionsHave(s.rows, x.org, v);
    InsertNextDense(s.rows, x.org, x.allowlist);
    forall u | u in s'.txns ensures TxnOk(s', u, s'.txns[u]) {
      if u != t {
        OtherAfterCommit(s, t, u, v);
      }
    }
  }

  lemma OtherAfterCommit(s: State, t: TxnId, u: TxnId, v: int)
    requires Inv(s) && t in s.txns && s.txns[t].phase.Ending? && u in s.txns && u != t && NextRow(s, t, s.txns[t], v)
    requires RunStep(s, t).rows == s.rows[Key(s.txns[t].org, v) := s.txns[t].allowlist]
    ensures TxnOk(RunStep(s, t), u, s.txns[u])
  {
    hide TargetPolicy.Accepted;
    var x, y, s' := s.txns[t], s.txns[u], RunStep(s, t);
    assert TxnOk(s, u, y);
    InsertNextDense(s.rows, x.org, x.allowlist);
    if y.org != x.org {
      SameNewest(s.rows, s'.rows, y.org);
    }
    if y.phase.Ending? {
      var w :| NextRow(s, u, y, w);
      assert Touches(y.rows, Key(y.org, w));
      assert y.org != x.org;
      assert NextRow(s', u, y, w);
    }
  }

  lemma SameNewest(rows: Rows, rows': Rows, org: Org)
    requires forall v :: Key(org, v) in rows <==> Key(org, v) in rows'
    requires Dense(rows)
    ensures Newest(rows, org) == Newest(rows', org)
  {
    forall v: int ensures v in Versions(rows, org) <==> v in Versions(rows', org) {
      VersionsHave(rows, org, v);
      VersionsHave(rows', org, v);
    }
    MaxIs(Versions(rows', org), Newest(rows, org), Newest(rows', org));
  }

  /** Committed rows stay as they are. */
  ghost predicate Extends(rows: Rows, rows': Rows) {
    forall k :: k in rows ==> k in rows' && rows'[k] == rows[k]
  }

  lemma StepKeeps(s: State, a: Action)
    requires Inv(s)
    ensures Inv(Step(s, a)) && Extends(s.rows, Step(s, a).rows)
  {
    hide TargetPolicy.Accepted, Dense;
    match a
    case Begin(t, org, allowlist) => if t !in s.txns { QuietKeeps(s, t, Txn(org, allowlist, Validating, Clean())); }
    case Fail(t) =>
      if t in s.txns && !s.txns[t].phase.Committed? {
        QuietKeeps(s, t, s.txns[t].(phase := RolledBack, rows := Clean()));
      }
    case Run(t) =>
      if t in s.txns {
        var x := s.txns[t];
        assert TxnOk(s, t, x);
        match x.phase
        case Validating => QuietKeeps(s, t, RunStep(s, t).txns[t]);
        case Numbering =>
          SeeClean(s.rows);
          NewestNotNegative(s.rows, x.org);
          QuietKeeps(s, t, RunStep(s, t).txns[t]);
        case Inserting(v) => InsertKeeps(s, t, v);
        case Ending => CommitKeeps(s, t);
        case _ =>
      }
  }

  lemma NewestNotNegative(rows: Rows, org: Org)
    requires Dense(rows)
    ensures Newest(rows, org) >= 0
  {
  }

  ghost predicate Init(s: State) {
    s.rows == map[] && s.txns == map[]
  }

  lemma EmptyIsDense()
    ensures Dense(map[])
  {
    forall org: Org ensures Newest(map[], org) >= 0 && Versions(map[], org) == UpTo(Newest(map[], org)) {
      assert Versions(map[], org) == {};
    }
  }

  /** With any number of replacements racing, each organisation's committed versions are 1 to n without a gap, every
      stored allowlist is one that validation accepts, and no version ever changes once it is committed. */
  lemma {:induction false} HistoryIsDenseAndImmutable(s0: State, run: seq<Action>, i: nat)
    requires Init(s0) && i <= |run|
    ensures Inv(Exec(s0, run[..i])) && Inv(Exec(s0, run))
    ensures Extends(Exec(s0, run[..i]).rows, Exec(s0, run).rows)
    decreases |run|
  {
    hide TargetPolicy.Accepted, Dense;
    if i == |run| {
      assert run[..i] == run;
      if run == [] {
        EmptyIsDense();
      } else {
        HistoryIsDenseAndImmutable(s0, run[..i - 1], i - 1);
        StepKeeps(Exec(s0, run[..i - 1]), run[i - 1]);
      }
    } else {
      var front := run[..|run| - 1];
      HistoryIsDenseAndImmutable(s0, front, i);
      assert front[..i] == run[..i];
      StepKeeps(Exec(s0, front), run[|run| - 1]);
    }
  }

  /** `ORDER BY version DESC LIMIT 1`. */
  ghost predicate IsCurrent(rows: Rows, org: Org, k: Key) {
    k in rows && k.org == org && forall other :: other in rows && other.org == org ==> other.version <= k.version
  }

  /** The current policy is the one whose number is the count of the organisation's versions, and there is one exactly
      when there is any version. */
  lemma CurrentIsTheLast(s0: State, run: seq<Action>, org: Org)
    requires Init(s0)
    ensures var rows := Exec(s0, run).rows;
      forall k :: IsCurrent(rows, org, k) <==> k == Key(org, |Versions(rows, org)|) && Versions(rows, org) != {}
  {
    HistoryIsDenseAndImmutable(s0, run, 0);
    var rows := Exec(s0, run).rows;
    var n := Newest(rows, org);
    CountUpTo(n);
    forall k ensures IsCurrent(rows, org, k) <==> k == Key(org, n) && Versions(rows, org) != {} {
      VersionsHave(rows, org, n);
      VersionsHave(rows, org, k.version);
      if k == Key(org, n) && Versions(rows, org) != {} {
        forall other | other in rows && other.org == org ensures other.version <= n {
          VersionsHave(rows, org, other.version);
        }
      }
    }
  }

  lemma {:induction false} CountUpTo(n: int)
    requires n >= 0
    ensures |UpTo(n)| == n
  {
    if n > 0 {
      CountUpTo(n - 1);
    }
  }

  // ---- Which replacements go through --------------------------------------------------------

  /** Why a step rolls a replacement back: the connection failed, its list is not acceptable, or the number it had
      chosen was committed by another before it came to its INSERT. */
  ghost predicate Reason(s: State, a: Action, t: TxnId) {
    && t in s.txns && a.t == t
    && (|| a.Fail?
        || (a.Run? && s.txns[t].phase.Validating?
            && exists e :: e in s.txns[t].allowlist && TargetPolicy.Verdict(e).Some?)
        || (a.Run? && s.txns[t].phase.Inserting? && Key(s.txns[t].org, s.txns[t].phase.version) in s.rows))
  }

  lemma RolledBackExactly(s: State, a: Action, t: TxnId)
    requires t in s.txns && !s.txns[t].phase.RolledBack? && !s.txns[t].phase.Committed?
    ensures t in Step(s, a).txns && (Step(s, a).txns[t].phase.RolledBack? <==> Reason(s, a, t))
  {
    hide TargetPolicy.Verdict;
  }

  /** Statements left until the commit. */
  function Left(p: Phase): nat {
    match p
    case Validating => 4
    case Numbering => 3
    case Inserting(_) => 2
    case Ending => 1
    case _ => 0
  }

  /** A replacement waits only while another holds the number it has chosen; otherwise each statement brings it nearer
      its end, and the last one commits. */
  lemma StatementAdvances(s: State, t: TxnId)
    requires t in s.txns && Left(s.txns[t].phase) > 0
    requires s.txns[t].phase.Inserting? ==> !KeyLocked(s, t, Key(s.txns[t].org, s.txns[t].phase.version))
    ensures var s' := Step(s, Run(t));
      && t in s'.txns && Left(s'.txns[t].phase) < Left(s.txns[t].phase)
      && (s.txns[t].phase.Ending? ==> s'.txns[t].phase.Committed?)
  {
    hide TargetPolicy.Accepted;
  }

  /** In every run a replacement that was rolled back was for one of those reasons. */
  lemma {:induction false} EveryRefusalHasAReason(s0: State, run: seq<Action>, t: TxnId) returns (i: nat)
    requires Init(s0) && t in Exec(s0, run).txns && Exec(s0, run).txns[t].phase.RolledBack?
    ensures i < |run| && Reason(Exec(s0, run[..i]), run[i], t)
  {
    var front, a := run[..|run| - 1], run[|run| - 1];
    var s := Exec(s0, front);
    hide Reason;
    if t in s.txns && s.txns[t].phase.RolledBack? {
      i := EveryRefusalHasAReason(s0, front, t);
      assert front[..i] == run[..i];
    } else {
      i := |front|;
      if t in s.txns {
        if s.txns[t].phase.Committed? {
          CommittedStays(s, a, t);
        } else {
          RolledBackExactly(s, a, t);
        }
      } else {
        BeginsValidating(s, a, t);
      }
    }
  }

  lemma CommittedStays(s: State, a: Action, t: TxnId)
    requires t in s.txns && s.txns[t].phase.Committed?
    ensures t in Step(s, a).txns && Step(s, a).txns[t].phase.Committed?
  {
    hide TargetPolicy.Accepted, KeyLocked;
  }

  lemma BeginsValidating(s: State, a: Action, t: TxnId)
    requires t !in s.txns && t in Step(s, a).txns
    ensures Step(s, a).txns[t].phase.Validating?
  {
    hide TargetPolicy.Accepted, KeyLocked;
  }

  // ---- One replacement at a time ------------------------------------------------------------

  /** `target_policy.updated`: the version stored, and how many entries it has. */
  datatype Audit = Audit(org: Org, version: int, entries: nat)

  class PolicyTable {
    var rows: Rows
    var audits: seq<Audit>

    constructor ()
      ensures rows == map[] && audits == [] && Dense(rows)
    {
      rows, audits := map[], [];
      new;
      EmptyIsDense();
    }

    method MaxVersion(org: Org) returns (m: int)
      ensures m == Newest(rows, org)
    {
      var rest := Versions(rows, org);
      ghost var seen: set<int> := {};
      m := 0;
      var first := true;
      while rest != {}
        invariant seen + rest == Versions(rows, org) && first == (seen == {})
        invariant IsMax(seen, m)
        decreases rest
      {
        var v :| v in rest;
        m := if first || v > m then v else m;
        first, rest, seen := false, rest - {v}, seen + {v};
      }
      assert seen == Versions(rows, org);
      var newest := Newest(rows, org);
    }

    /** A stored allowlist becomes the next version and the current one, and is audited once; a refused one changes
        nothing. */
    method Replace(org: Org, allowlist: seq<string>) returns (stored: Result<int, (string, TargetPolicy.Refusal)>)
      requires Dense(rows) && AllAccepted(rows)
      modifies this
      ensures stored.Ok? <==> TargetPolicy.Accepted(allowlist)
      ensures stored.Err? ==> rows == old(rows) && audits == old(audits)
      ensures stored.Ok? ==> audits == old(audits) + [Audit(org, stored.value, |allowlist|)]
      ensures stored.Ok? ==> stored.value == Newest(old(rows), org) + 1 == Newest(rows, org)
      ensures stored.Err? ==>
        exists i :: && 0 <= i < |allowlist| && TargetPolicy.Accepted(allowlist[..i])
                    && allowlist[i] == stored.error.0 && TargetPolicy.Verdict(allowlist[i]) == Some(stored.error.1)
      ensures stored.Ok? ==>
        && (forall k :: k in old(rows) && k.org == org ==> k.version < stored.value)
        && (stored.value == 1 || Key(org, stored.value - 1) in old(rows))
      ensures stored.Ok? ==> rows == old(rows)[Key(org, stored.value) := allowlist] && Extends(old(rows), rows)
      ensures Dense(rows) && AllAccepted(rows)
    {
      hide TargetPolicy.Accepted, TargetPolicy.Verdict;
      var valid := TargetPolicy.ValidateEntries(allowlist);
      match valid
      case Err(refusal) => return Err(refusal);
      case Ok(_) =>
        var m := MaxVersion(org);
        InsertNextDense(rows, org, allowlist);
        VersionsHave(rows, org, m + 1);
        VersionsHave(rows, org, m);
        forall k | k in rows && k.org == org ensures k.version <= m {
          VersionsHave(rows, org, k.version);
        }
        rows := rows[Key(org, m + 1) := allowlist];
        audits := audits + [Audit(org, m + 1, |allowlist|)];
        return Ok(m + 1);
    }
  }
}
