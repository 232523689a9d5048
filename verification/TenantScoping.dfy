/** Row-level security over pooled connections: what one organisation's transactions can see and change. */
module TenantScoping {
  import opened Wrappers
  import opened Tables

  type Org = nat

  type ConnId = nat

  /** A transaction opened for a principal of this organisation. */
  datatype TxnId = TxnId(org: Org, serial: nat)

  /** A fresh identifier: who drew it, and how many they had drawn. */
  datatype RowId = RowId(txn: TxnId, index: nat)

  /** A tenant row. `(org, key)` is unique. */
  datatype Row = Row(org: Org, key: string, data: string)

  type Table = map<RowId, Row>

  /** `app.current_org_id`: never set, reset to the empty string, or an organisation. */
  datatype Setting = Unset | Empty | OrgId(org: Org)

  datatype Answer = Rows(rows: Table) | Changed(ids: set<RowId>) | Made(id: RowId, row: Row) | Refused

  datatype Txn = Txn(conn: ConnId, open: bool, failed: bool, local: Setting, drawn: nat,
                     pending: Pending<RowId, Row>, answers: seq<Answer>)

  /** Committed rows, the setting each pooled connection has outside transactions, and all transactions so far. */
  datatype State = State(rows: Table, conns: map<ConnId, Setting>, txns: map<TxnId, Txn>)

  /** Statements are arbitrary functions of the rows the policy lets them see: a query, an UPDATE or DELETE that
      rewrites those rows, an INSERT of a row computed from them. */
  datatype Op =
    | Begin(conn: ConnId)
    | Bind
    | Read
    | Write(rewrite: Table -> Table)
    | Insert(make: Table -> Row)
    | End(keep: bool)

  datatype Action = Action(t: TxnId, op: Op)

  // ---- Policies -----------------------------------------------------------------------------

  /** What `current_setting` gives: the transaction's own value if it has set one, else the connection's. */
  function Current(s: State, x: Txn): Setting {
    if x.local != Unset then x.local else if x.conn in s.conns then s.conns[x.conn] else Unset
  }

  /** The policy, for rows read and rows written alike: the row is of the organisation the setting names. An unset or
      empty setting names none. */
  predicate Passes(s: State, x: Txn, row: Row) {
    Current(s, x) == OrgId(row.org)
  }

  function View(s: State, x: Txn): Table {
    var table := See(s.rows, x.pending);
    map id | id in table && Passes(s, x, table[id]) :: table[id]
  }

  // ---- Statements ---------------------------------------------------------------------------

  predicate SameKey(a: Row, b: Row) {
    a.org == b.org && a.key == b.key
  }

  /** Another open transaction has written one of these rows, or a row with the key of one of them. */
  ghost predicate Blocked(s: State, t: TxnId, puts: Table, dels: set<RowId>) {
    exists u, id :: u in s.txns && u != t && Touches(s.txns[u].pending, id) && Collides(s, s.txns[u], id, puts, dels)
  }

  ghost predicate Collides(s: State, y: Txn, id: RowId, puts: Table, dels: set<RowId>) {
    || id in puts
    || id in dels
    || (id in y.pending.puts && exists r :: r in puts && SameKey(puts[r], y.pending.puts[id]))
    || (id in s.rows && exists r :: r in puts && SameKey(puts[r], s.rows[id]))
  }

  /** The unique constraint, over all rows whatever the policy shows. */
  predicate Clashes(table: Table, puts: Table) {
    exists r, q :: r in puts && q in table && q != r && SameKey(puts[r], table[q])
  }

  function With(s: State, t: TxnId, x: Txn): State {
    s.(txns := s.txns[t := x])
  }

  function Told(x: Txn, answer: Answer): Txn {
    x.(answers := x.answers + [answer])
  }

  /** Rows written and deleted by a statement, on top of what its transaction had written. */
  function Atop(p: Pending<RowId, Row>, puts: Table, dels: set<RowId>): Pending<RowId, Row> {
    Pending((p.puts - dels) + puts, (p.dels + dels) - puts.Keys)
  }

  /** Rows and deletions go in if the policy and the unique constraint allow, once nobody else holds them; until then
      the statement waits. */
  ghost function Applied(s: State, t: TxnId, puts: Table, dels: set<RowId>, answer: Answer): Txn
    requires t in s.txns
  {
    var x := s.txns[t];
    if exists r :: r in puts && !Passes(s, x, puts[r]) then Told(x, Refused).(failed := true)
    else if Blocked(s, t, puts, dels) then x
    else if Clashes(See(s.rows, Atop(x.pending, puts, dels)), puts) then Told(x, Refused).(failed := true)
    else Told(x, answer).(pending := Atop(x.pending, puts, dels),
                          drawn := if answer.Made? then x.drawn + 1 else x.drawn)
  }

  function Puts(view: Table, result: Table): Table {
    map id | id in view && id in result && result[id] != view[id] :: result[id]
  }

  function Dels(view: Table, result: Table): set<RowId> {
    view.Keys - result.Keys
  }

  /** The transaction after one statement. */
  ghost function Statement(s: State, t: TxnId, op: Op): Txn
    requires t in s.txns
  {
    var x := s.txns[t];
    var view := View(s, x);
    match op
    case Read => Told(x, Rows(view))
    case Write(rewrite) =>
      var result := rewrite(view);
      Applied(s, t, Puts(view, result), Dels(view, result), Changed(Puts(view, result).Keys + Dels(view, result)))
    case Insert(make) =>
      Applied(s, t, map[RowId(t, x.drawn) := make(view)], {}, Made(RowId(t, x.drawn), make(view)))
    case Bind => x.(local := OrgId(t.org))
    case _ => x
  }

  ghost predicate Idle(s: State, conn: ConnId) {
    forall t :: t in s.txns && s.txns[t].open ==> s.txns[t].conn != conn
  }

  /** A setting made with `is_local = true` ends with the transaction, leaving an empty string where there
      was nothing. */
  function Reset(s: State, x: Txn): Setting {
    var outside := if x.conn in s.conns then s.conns[x.conn] else Unset;
    if outside == Unset && x.local != Unset then Empty else outside
  }

  ghost function Step(s: State, a: Action): State {
    var t := a.t;
    match a.op
    case Begin(conn) =>
      if t in s.txns || !Idle(s, conn) then s else With(s, t, Txn(conn, true, false, Unset, 0, Clean(), []))
    case End(keep) =>
      if t !in s.txns || !s.txns[t].open then s
      else
        var x := s.txns[t];
        State(if keep && !x.failed then See(s.rows, x.pending) else s.rows, s.conns[x.conn := Reset(s, x)],
              s.txns[t := x.(open := false, local := Unset, pending := Clean())])
    case _ =>
      if t !in s.txns || !s.txns[t].open then s
      else if s.txns[t].failed then With(s, t, Told(s.txns[t], Refused))
      else With(s, t, Statement(s, t, a.op))
  }

  ghost function Exec(s: State, run: seq<Action>): State {
    if run == [] then s else Step(Exec(s, run[..|run| - 1]), run[|run| - 1])
  }

  // ---- What every step keeps ----------------------------------------------------------------

  ghost predicate OwnWrites(t: TxnId, x: Txn) {
    && (x.local == Unset || x.local == OrgId(t.org))
    && (forall id :: id in x.pending.puts ==> id.txn.org == t.org && x.pending.puts[id].org == t.org)
    && (forall id :: id in x.pending.dels ==> id.txn.org == t.org)
  }

  ghost predicate OwnRows(rows: Table) {
    forall id :: id in rows ==> rows[id].org == id.txn.org
  }

  /** No connection outside a transaction names an organisation. */
  ghost predicate NoLeftovers(conns: map<ConnId, Setting>) {
    forall c :: c in conns ==> !conns[c].OrgId?
  }

  ghost predicate Inv(s: State) {
    OwnRows(s.rows) && NoLeftovers(s.conns) && (forall t :: t in s.txns ==> OwnWrites(t, s.txns[t]))
  }

  /** A transaction that has not set the organisation sees nothing, whoever used its connection before; one that has
      sees all of its organisation's rows with its own writes over them, and no other. */
  lemma ViewIsOwn(s: State, t: TxnId)
    requires Inv(s) && t in s.txns
    ensures var x := s.txns[t]; var table := See(s.rows, x.pending);
      && (x.local == Unset ==> View(s, x) == map[])
      && (x.local != Unset ==> View(s, x) == map id | id in table && id.txn.org == t.org :: table[id])
  {
    var x := s.txns[t];
    assert OwnWrites(t, x);
  }

  ghost predicate OwnStatement(t: TxnId, puts: Table, dels: set<RowId>) {
    (forall id :: id in puts ==> id.txn.org == t.org) && (forall id :: id in dels ==> id.txn.org == t.org)
  }

  lemma AppliedOwn(s: State, t: TxnId, puts: Table, dels: set<RowId>, answer: Answer)
    requires Inv(s) && t in s.txns && OwnStatement(t, puts, dels)
    ensures OwnWrites(t, Applied(s, t, puts, dels, answer))
  {
    hide Blocked, Clashes, See;
    assert OwnWrites(t, s.txns[t]);
  }

  lemma RewriteOwn(s: State, t: TxnId, result: Table)
    requires Inv(s) && t in s.txns
    ensures var view := View(s, s.txns[t]); OwnStatement(t, Puts(view, result), Dels(view, result))
  {
    ViewIsOwn(s, t);
  }

  lemma StatementOwn(s: State, t: TxnId, op: Op)
    requires Inv(s) && t in s.txns
    ensures OwnWrites(t, Statement(s, t, op))
  {
    hide View, Applied, Puts, Dels;
    var x := s.txns[t];
    var view := View(s, x);
    assert OwnWrites(t, x);
    match op
    case Write(rewrite) =>
      var result := rewrite(view);
      RewriteOwn(s, t, result);
      AppliedOwn(s, t, Puts(view, result), Dels(view, result), Changed(Puts(view, result).Keys + Dels(view, result)));
    case Insert(make) =>
      AppliedOwn(s, t, map[RowId(t, x.drawn) := make(view)], {}, Made(RowId(t, x.drawn), make(view)));
    case _ =>
  }

  lemma StepKeeps(s: State, a: Action)
    requires Inv(s)
    ensures Inv(Step(s, a))
  {
    hide Statement, Idle;
    if a.t in s.txns {
      assert OwnWrites(a.t, s.txns[a.t]);
      StatementOwn(s, a.t, a.op);
    }
  }

  // ---- One organisation alone ---------------------------------------------------------------

  function RowsOf(rows: Table, org: Org): Table {
    map id | id in rows && id.txn.org == org :: rows[id]
  }

  function TxnsOf(txns: map<TxnId, Txn>, org: Org): map<TxnId, Txn> {
    map t | t in txns && t.org == org :: txns[t]
  }

  /** The database as if no other organisation had ever been there: its rows, its transactions with all their answers,
      and a pool nobody has used. */
  function Only(s: State, org: Org): State {
    State(RowsOf(s.rows, org), map[], TxnsOf(s.txns, org))
  }

  /** A step changes no transaction but its own, and rows only at the end of one. */
  lemma StepElsewhere(s: State, a: Action)
    ensures var s' := Step(s, a);
      && (s' == s || (a.t in s'.txns && s'.txns == s.txns[a.t := s'.txns[a.t]]))
      && (s'.rows == s.rows || (a.t in s.txns && s'.rows == See(s.rows, s.txns[a.t].pending)))
  {
    hide Statement, Idle;
  }

  /** A step of another organisation changes no row, no transaction and no answer of this one. */
  lemma OthersUntouched(s: State, a: Action, org: Org)
    requires Inv(s) && a.t.org != org
    ensures Only(Step(s, a), org) == Only(s, org)
  {
    hide Step;
    var s' := Step(s, a);
    StepElsewhere(s, a);
    if s' != s {
      assert TxnsOf(s.txns[a.t := s'.txns[a.t]], org) == TxnsOf(s.txns, org);
    }
    if s'.rows != s.rows {
      assert OwnWrites(a.t, s.txns[a.t]);
      assert RowsOf(See(s.rows, s.txns[a.t].pending), org) == RowsOf(s.rows, org);
    }
  }

  lemma OnlyKeeps(s: State, org: Org)
    requires Inv(s)
    ensures Inv(Only(s, org)) && Only(Only(s, org), org) == Only(s, org)
  {
    assert RowsOf(RowsOf(s.rows, org), org) == RowsOf(s.rows, org);
    assert TxnsOf(TxnsOf(s.txns, org), org) == TxnsOf(s.txns, org);
  }

  lemma SamePolicy(s: State, t: TxnId, row: Row)
    requires Inv(s) && t in s.txns
    ensures Passes(Only(s, t.org), s.txns[t], row) <==> Passes(s, s.txns[t], row)
  {
  }

  lemma SameTable(s: State, t: TxnId)
    requires Inv(s) && t in s.txns
    ensures var x := s.txns[t]; var all, own := See(s.rows, x.pending), See(RowsOf(s.rows, t.org), x.pending);
      (map id | id in own && id.txn.org == t.org :: own[id]) == map id | id in all && id.txn.org == t.org :: all[id]
  {
  }

  lemma SameView(s: State, t: TxnId)
    requires Inv(s) && t in s.txns
    ensures t in Only(s, t.org).txns && View(Only(s, t.org), s.txns[t]) == View(s, s.txns[t])
    ensures forall row: Row :: Passes(Only(s, t.org), s.txns[t], row) <==> Passes(s, s.txns[t], row)
  {
    forall row: Row ensures Passes(Only(s, t.org), s.txns[t], row) <==> Passes(s, s.txns[t], row) {
      SamePolicy(s, t, row);
    }
    OnlyKeeps(s, t.org);
    ViewIsOwn(s, t);
    ViewIsOwn(Only(s, t.org), t);
    SameTable(s, t);
    hide View, See, Passes, Inv;
  }

  lemma SameBlocked(s: State, t: TxnId, puts: Table, dels: set<RowId>)
    requires Inv(s) && t in s.txns
    requires forall id :: id in puts ==> id.txn.org == t.org && puts[id].org == t.org
    requires forall id :: id in dels ==> id.txn.org == t.org
    ensures Blocked(Only(s, t.org), t, puts, dels) <==> Blocked(s, t, puts, dels)
  {
    var o := Only(s, t.org);
    forall u, id | u in s.txns && Touches(s.txns[u].pending, id)
      ensures Collides(s, s.txns[u], id, puts, dels) ==> u.org == t.org
      ensures u.org == t.org ==> (Collides(o, s.txns[u], id, puts, dels) <==> Collides(s, s.txns[u], id, puts, dels))
    {
      assert OwnWrites(u, s.txns[u]);
    }
    if Blocked(s, t, puts, dels) {
      var u, id :| u in s.txns && u != t && Touches(s.txns[u].pending, id) && Collides(s, s.txns[u], id, puts, dels);
      assert u in o.txns && Touches(o.txns[u].pending, id) && Collides(o, o.txns[u], id, puts, dels);
    }
    if Blocked(o, t, puts, dels) {
      var u, id :| u in o.txns && u != t && Touches(o.txns[u].pending, id) && Collides(o, o.txns[u], id, puts, dels);
      assert u in s.txns && Touches(s.txns[u].pending, id) && Collides(s, s.txns[u], id, puts, dels);
    }
  }

  lemma SameClashes(rows: Table, pending: Pending<RowId, Row>, org: Org, puts: Table)
    requires OwnRows(rows) && (forall id :: id in pending.puts ==> id.txn.org == org && pending.puts[id].org == org)
    requires forall id :: id in pending.dels ==> id.txn.org == org
    requires forall id :: id in puts ==> puts[id].org == org
    ensures Clashes(See(RowsOf(rows, org), pending), puts) <==> Clashes(See(rows, pending), puts)
  {
    var all, own := See(rows, pending), See(RowsOf(rows, org), pending);
    assert forall q :: q in all && all[q].org == org ==> q in own && own[q] == all[q];
    assert forall q :: q in own ==> q in all && own[q] == all[q];
  }

  lemma SameApplied(s: State, t: TxnId, puts: Table, dels: set<RowId>, answer: Answer)
    requires Inv(s) && t in s.txns && OwnStatement(t, puts, dels)
    ensures t in Only(s, t.org).txns
    ensures Applied(Only(s, t.org), t, puts, dels, answer) == Applied(s, t, puts, dels, answer)
  {
    hide Blocked, Clashes, See, View, Atop;
    SameView(s, t);
    if forall r :: r in puts ==> Passes(s, s.txns[t], puts[r]) {
      assert OwnWrites(t, s.txns[t]);
      SameBlocked(s, t, puts, dels);
      AtopOwn(t, s.txns[t], puts, dels);
      SameClashes(s.rows, Atop(s.txns[t].pending, puts, dels), t.org, puts);
    }
  }

  lemma AtopOwn(t: TxnId, x: Txn, puts: Table, dels: set<RowId>)
    requires OwnWrites(t, x) && OwnStatement(t, puts, dels) && forall id :: id in puts ==> puts[id].org == t.org
    ensures var p := Atop(x.pending, puts, dels);
      && (forall id :: id in p.puts ==> id.txn.org == t.org && p.puts[id].org == t.org)
      && (forall id :: id in p.dels ==> id.txn.org == t.org)
  {
  }

  /** What a statement does and answers is the same with no other organisation there. */
  lemma SameStatement(s: State, t: TxnId, op: Op)
    requires Inv(s) && t in s.txns
    ensures t in Only(s, t.org).txns && Statement(Only(s, t.org), t, op) == Statement(s, t, op)
  {
    hide View, Applied, Puts, Dels, OwnStatement;
    var x := s.txns[t];
    var view := View(s, x);
    SameView(s, t);
    match op
    case Write(rewrite) =>
      var result := rewrite(view);
      RewriteOwn(s, t, result);
      SameApplied(s, t, Puts(view, result), Dels(view, result), Changed(Puts(view, result).Keys + Dels(view, result)));
    case Insert(make) =>
      InsertOwn(t, x.drawn, make(view));
      SameApplied(s, t, map[RowId(t, x.drawn) := make(view)], {}, Made(RowId(t, x.drawn), make(view)));
    case _ =>
  }

  lemma InsertOwn(t: TxnId, drawn: nat, row: Row)
    ensures OwnStatement(t, map[RowId(t, drawn) := row], {})
  {
  }

  lemma OnlyWith(s: State, t: TxnId, x: Txn)
    ensures Only(With(s, t, x), t.org) == With(Only(s, t.org), t, x)
    ensures Only(With(Only(s, t.org), t, x), t.org) == With(Only(s, t.org), t, x)
  {
    assert TxnsOf(s.txns[t := x], t.org) == TxnsOf(s.txns, t.org)[t := x];
    assert TxnsOf(TxnsOf(s.txns, t.org)[t := x], t.org) == TxnsOf(s.txns, t.org)[t := x];
    assert RowsOf(RowsOf(s.rows, t.org), t.org) == RowsOf(s.rows, t.org);
  }

  /** A step of this organisation does the same with no other organisation there. */
  lemma OwnStepAlone(s: State, a: Action)
    requires Inv(s) && (a.op.Begin? ==> Idle(s, a.op.conn))
    ensures Only(Step(s, a), a.t.org) == Only(Step(Only(s, a.t.org), a), a.t.org)
  {
    var t, o := a.t, Only(s, a.t.org);
    OnlyKeeps(s, t.org);
    if t in s.txns && s.txns[t].open {
      SameStatement(s, t, a.op);
      hide Statement, Idle;
      var x := s.txns[t];
      if a.op.End? {
        EndAlone(s, a);
      } else if !a.op.Begin? {
        var y := if x.failed then Told(x, Refused) else Statement(s, t, a.op);
        OnlyWith(s, t, y);
      }
    } else if a.op.Begin? && t !in s.txns {
      assert Idle(o, a.op.conn);
      OnlyWith(s, t, Txn(a.op.conn, true, false, Unset, 0, Clean(), []));
    }
  }

  lemma CommittedAlone(rows: Table, p: Pending<RowId, Row>, org: Org)
    requires forall id :: id in p.puts ==> id.txn.org == org
    ensures RowsOf(See(rows, p), org) == RowsOf(See(RowsOf(rows, org), p), org)
  {
  }

  lemma EndAlone(s: State, a: Action)
    requires Inv(s) && a.t in s.txns && s.txns[a.t].open && a.op.End?
    ensures Only(Step(s, a), a.t.org) == Only(Step(Only(s, a.t.org), a), a.t.org)
  {
    hide See;
    var t, o, x := a.t, Only(s, a.t.org), s.txns[a.t];
    var y := x.(open := false, local := Unset, pending := Clean());
    assert OwnWrites(t, x);
    CommittedAlone(s.rows, x.pending, t.org);
    OnlyKeeps(s, t.org);
    OnlyWith(s, t, y);
  }

  // ---- Noninterference ----------------------------------------------------------------------

  /** The actions of one organisation's transactions. */
  function Purge(run: seq<Action>, org: Org): (own: seq<Action>)
    ensures forall i :: 0 <= i < |own| ==> own[i].t.org == org
  {
    if run == [] then [] else
    var last := run[|run| - 1];
    Purge(run[..|run| - 1], org) + (if last.t.org == org then [last] else [])
  }

  /** The pool hands out only connections no transaction is using. */
  ghost predicate Pooled(s: State, run: seq<Action>) {
    run == [] ||
    (Pooled(s, run[..|run| - 1])
     && (run[|run| - 1].op.Begin? ==> Idle(Exec(s, run[..|run| - 1]), run[|run| - 1].op.conn)))
  }

  lemma {:induction false} Reachable(s: State, run: seq<Action>)
    requires Inv(s)
    ensures Inv(Exec(s, run))
  {
    if run != [] {
      Reachable(s, run[..|run| - 1]);
      StepKeeps(Exec(s, run[..|run| - 1]), run[|run| - 1]);
    }
  }

  /** Steps taken alone from equal restrictions end in equal restrictions. */
  lemma StepRestricted(s: State, s': State, a: Action)
    requires Inv(s) && Inv(s') && Only(s, a.t.org) == Only(s', a.t.org)
    requires a.op.Begin? ==> Idle(s, a.op.conn) && Idle(s', a.op.conn)
    ensures Only(Step(s, a), a.t.org) == Only(Step(s', a), a.t.org)
  {
    hide *;
    OwnStepAlone(s, a);
    OwnStepAlone(s', a);
  }

  /** Everything an organisation's transactions are answered, and everything they leave behind, is what they would get
      in a database that held its rows alone and where nobody else did anything. */
  lemma {:induction false} AsIfAlone(s: State, run: seq<Action>, org: Org)
    requires Inv(s) && Pooled(s, run)
    ensures Only(Exec(s, run), org) == Only(Exec(Only(s, org), Purge(run, org)), org)
    ensures Inv(Exec(Only(s, org), Purge(run, org)))
  {
    OnlyKeeps(s, org);
    Reachable(Only(s, org), Purge(run, org));
    if run != [] {
      var front, last := run[..|run| - 1], run[|run| - 1];
      AsIfAlone(s, front, org);
      Reachable(s, front);
      var mid, alone := Exec(s, front), Exec(Only(s, org), Purge(front, org));
      if last.t.org == org {
        assert Purge(run, org)[..|Purge(run, org)| - 1] == Purge(front, org);
        if last.op.Begin? {
          IdleAlone(mid, alone, org, last.op.conn, s, Purge(front, org));
        }
        StepRestricted(mid, alone, last);
      } else {
        assert Purge(run, org) == Purge(front, org);
        OthersUntouched(mid, last, org);
      }
    }
  }

  /** Alone, only this organisation's transactions hold connections. */
  lemma IdleAlone(mid: State, alone: State, org: Org, conn: ConnId, s: State, run: seq<Action>)
    requires Only(mid, org) == Only(alone, org) && Idle(mid, conn)
    requires alone == Exec(Only(s, org), run) && (forall i :: 0 <= i < |run| ==> run[i].t.org == org)
    ensures Idle(alone, conn)
  {
    OnlyOwnTxns(Only(s, org), run, org);
    forall t | t in alone.txns && alone.txns[t].open ensures alone.txns[t].conn != conn {
      assert t in Only(alone, org).txns;
      assert t in Only(mid, org).txns;
    }
  }

  lemma {:induction false} OnlyOwnTxns(s: State, run: seq<Action>, org: Org)
    requires (forall t :: t in s.txns ==> t.org == org) && (forall i :: 0 <= i < |run| ==> run[i].t.org == org)
    ensures forall t :: t in Exec(s, run).txns ==> t.org == org
  {
    if run != [] {
      var front := run[..|run| - 1];
      OnlyOwnTxns(s, front, org);
      StepElsewhere(Exec(s, front), run[|run| - 1]);
    }
  }

  /** Noninterference: two databases that agree on an organisation's rows and transactions answer its transactions alike
      and still agree on its rows, whatever other organisations do in either. */
  lemma Noninterference(s: State, s': State, run: seq<Action>, run': seq<Action>, org: Org)
    requires Inv(s) && Inv(s') && Pooled(s, run) && Pooled(s', run')
    requires Only(s, org) == Only(s', org) && Purge(run, org) == Purge(run', org)
    ensures Only(Exec(s, run), org) == Only(Exec(s', run'), org)
  {
    AsIfAlone(s, run, org);
    AsIfAlone(s', run', org);
  }

  /** Nothing an organisation does changes a row of another. */
  lemma {:induction false} OtherRowsStay(s: State, run: seq<Action>, org: Org, id: RowId)
    requires Inv(s) && (forall i :: 0 <= i < |run| ==> run[i].t.org == org) && id.txn.org != org
    ensures id in Exec(s, run).rows <==> id in s.rows
    ensures id in s.rows ==> Exec(s, run).rows[id] == s.rows[id]
  {
    if run != [] {
      var front, last := run[..|run| - 1], run[|run| - 1];
      OtherRowsStay(s, front, org, id);
      Reachable(s, front);
      var mid := Exec(s, front);
      OthersUntouched(mid, last, id.txn.org);
      assert id in mid.rows <==> id in RowsOf(mid.rows, id.txn.org);
      assert id in Step(mid, last).rows <==> id in RowsOf(Step(mid, last).rows, id.txn.org);
    }
  }

  /** A pooled connection carries no organisation into its next transaction: until that one sets its own it sees no row
      and can insert none. */
  lemma FreshTransactionSeesNothing(s: State, run: seq<Action>, t: TxnId, row: Row)
    requires Inv(s) && t in Exec(s, run).txns && Exec(s, run).txns[t].local == Unset
    ensures var now := Exec(s, run); View(now, now.txns[t]) == map[] && !Passes(now, now.txns[t], row)
  {
    Reachable(s, run);
    ViewIsOwn(Exec(s, run), t);
  }

  // ---- What statements are for --------------------------------------------------------------

  lemma AppliedPending(s: State, t: TxnId, puts: Table, dels: set<RowId>, answer: Answer)
    requires t in s.txns && !s.txns[t].failed && answer != Refused
    ensures var x, y := s.txns[t], Applied(s, t, puts, dels, answer);
      && y.local == x.local && y.conn == x.conn
      && (if y == x || y.failed then y.pending == x.pending
          else (y.pending == Atop(x.pending, puts, dels) && y.answers == x.answers + [answer]
                && forall r :: r in puts ==> Passes(s, x, puts[r])))
  {
    hide Blocked, Clashes, Passes, Atop;
  }

  lemma SeeAtop(rows: Table, p: Pending<RowId, Row>, puts: Table, dels: set<RowId>)
    ensures See(rows, Atop(p, puts, dels)) == (See(rows, p) - dels) + puts
  {
  }

  lemma ViewAtop(s: State, x: Txn, y: Txn, puts: Table, dels: set<RowId>)
    requires y.local == x.local && y.conn == x.conn && y.pending == Atop(x.pending, puts, dels)
    requires forall r :: r in puts ==> Passes(s, x, puts[r])
    ensures View(s, y) == (View(s, x) - dels) + puts
  {
    SeeAtop(s.rows, x.pending, puts, dels);
    hide See, Atop;
  }

  /** An UPDATE or DELETE that goes through rewrites the rows it saw, exactly as asked, and no others; a refused or a
      waiting one changes nothing its transaction sees. */
  lemma WriteTakesEffect(s: State, t: TxnId, rewrite: Table -> Table)
    requires t in s.txns && !s.txns[t].failed
    ensures var x, y := s.txns[t], Statement(s, t, Write(rewrite)); var view := View(s, x);
      View(s, y) == if y == x || y.failed then view else map id | id in view && id in rewrite(view) :: rewrite(view)[id]
  {
    var x, y := s.txns[t], Statement(s, t, Write(rewrite));
    var view := View(s, x);
    var puts, dels := Puts(view, rewrite(view)), Dels(view, rewrite(view));
    AppliedPending(s, t, puts, dels, Changed(puts.Keys + dels));
    hide Applied, Atop, Passes;
    if y == x || y.failed {
      SameWritesSameView(s, x, y);
    } else {
      ViewAtop(s, x, y, puts, dels);
      hide View;
      assert (view - dels) + puts == map id | id in view && id in rewrite(view) :: rewrite(view)[id];
    }
  }

  lemma PassesIsOwn(s: State, t: TxnId, row: Row)
    requires Inv(s) && t in s.txns && Passes(s, s.txns[t], row)
    ensures row.org == t.org
  {
    assert OwnWrites(t, s.txns[t]);
  }

  lemma RowApplied(s: State, t: TxnId, id: RowId, row: Row, y: Txn)
    requires Inv(s) && t in s.txns && !s.txns[t].failed && y == Applied(s, t, map[id := row], {}, Made(id, row))
    ensures y == s.txns[t] || y.failed ==> View(s, y) == View(s, s.txns[t])
    ensures !(y == s.txns[t] || y.failed) ==> View(s, y) == View(s, s.txns[t])[id := row] && row.org == t.org
    ensures !(y == s.txns[t] || y.failed) ==> y.answers == s.txns[t].answers + [Made(id, row)]
  {
    var x, puts := s.txns[t], map[id := row];
    AppliedPending(s, t, puts, {}, Made(id, row));
    hide Applied, Inv, Passes, Atop, View, Blocked, Clashes, See;
    if y == x || y.failed {
      SameWritesSameView(s, x, y);
    } else {
      assert id in puts && puts[id] == row;
      PassesIsOwn(s, t, row);
      ViewAtop(s, x, y, puts, {});
      AddOne(View(s, x), id, row);
    }
  }

  lemma AddOne(table: Table, id: RowId, row: Row)
    ensures (table - {}) + map[id := row] == table[id := row]
  {
  }

  lemma SameWritesSameView(s: State, x: Txn, y: Txn)
    requires y.local == x.local && y.conn == x.conn && y.pending == x.pending
    ensures View(s, y) == View(s, x)
  {
  }

  /** An INSERT that goes through adds its row, which is one of the transaction's organisation. */
  lemma InsertTakesEffect(s: State, t: TxnId, make: Table -> Row)
    requires Inv(s) && t in s.txns && !s.txns[t].failed
    ensures var x, y := s.txns[t], Statement(s, t, Insert(make)); var view := View(s, x);
      if y == x || y.failed then View(s, y) == view
      else
        && View(s, y) == view[RowId(t, x.drawn) := make(view)] && make(view).org == t.org
        && y.answers == x.answers + [Made(RowId(t, x.drawn), make(view))]
  {
    hide View, Applied, Inv;
    var x := s.txns[t];
    RowApplied(s, t, RowId(t, x.drawn), make(View(s, x)), Statement(s, t, Insert(make)));
  }

  /** Committing publishes exactly what the transaction saw as its organisation's rows; leaving by an exception, or
      after a refused statement, publishes nothing. */
  lemma CommitPublishesView(s: State, t: TxnId, keep: bool)
    requires Inv(s) && t in s.txns && s.txns[t].open && s.txns[t].local != Unset
    ensures RowsOf(Step(s, Action(t, End(keep))).rows, t.org)
      == if keep && !s.txns[t].failed then View(s, s.txns[t]) else RowsOf(s.rows, t.org)
  {
    ViewIsOwn(s, t);
  }
}
