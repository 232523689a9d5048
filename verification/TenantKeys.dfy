/** `(organisation, key)` stays unique in every interleaving, although a statement checks it before it commits. */
module TenantKeys {
  import opened Wrappers
  import opened Tables
  import opened TenantScoping

  /** No two rows of one organisation with one key. */
  ghost predicate Unique(table: Table) {
    forall i, j :: i in table && j in table && table[i].org == table[j].org && table[i].key == table[j].key ==> i == j
  }

  /** What two open transactions have written does not meet: no row, no key, and no key of a row the other has
      written. */
  ghost predicate Separate(rows: Table, p: Pending<RowId, Row>, q: Pending<RowId, Row>) {
    && (forall id :: Touches(p, id) ==> !Touches(q, id))
    && (forall i, j :: i in p.puts && j in q.puts ==> !SameKey(p.puts[i], q.puts[j]))
    && (forall i, j :: i in p.puts && Touches(q, j) && j in rows ==> !SameKey(p.puts[i], rows[j]))
  }

  /** Also with what each transaction has written there is no double key. */
  ghost predicate KeysKept(s: State) {
    && Unique(s.rows)
    && (forall t :: t in s.txns ==> Unique(See(s.rows, s.txns[t].pending)))
    && (forall t, u :: t in s.txns && u in s.txns && t != u ==>
          Separate(s.rows, s.txns[t].pending, s.txns[u].pending))
  }

  lemma SamePendingKeeps(s: State, t: TxnId, y: Txn, conns: map<ConnId, Setting>)
    requires KeysKept(s) && (y.pending == Clean() || (t in s.txns && y.pending == s.txns[t].pending))
    ensures KeysKept(State(s.rows, conns, s.txns[t := y]))
  {
    SeeClean(s.rows);
    hide Unique, See;
    assert forall q: Pending<RowId, Row> :: Separate(s.rows, Clean(), q) && Separate(s.rows, q, Clean());
    hide Separate;
  }

  lemma NotBlocked(s: State, t: TxnId, u: TxnId, puts: Table, dels: set<RowId>)
    requires t in s.txns && u in s.txns && u != t && !Blocked(s, t, puts, dels)
    ensures var q := s.txns[u].pending;
      && (forall id :: Touches(q, id) ==> id !in puts && id !in dels)
      && (forall i, j :: i in puts && j in q.puts ==> !SameKey(puts[i], q.puts[j]))
      && (forall i, j :: i in puts && Touches(q, j) && j in s.rows ==> !SameKey(puts[i], s.rows[j]))
  {
    var q := s.txns[u].pending;
    forall id | Touches(q, id) ensures !Collides(s, s.txns[u], id, puts, dels) {
    }
    forall i, j | i in puts && j in q.puts ensures !SameKey(puts[i], q.puts[j]) {
      assert Touches(q, j);
    }
  }

  lemma StatementSeparate(s: State, t: TxnId, u: TxnId, puts: Table, dels: set<RowId>)
    requires KeysKept(s) && t in s.txns && u in s.txns && u != t && !Blocked(s, t, puts, dels)
    ensures var p, q := Atop(s.txns[t].pending, puts, dels), s.txns[u].pending;
      Separate(s.rows, p, q) && Separate(s.rows, q, p)
  {
    var before, p, q := s.txns[t].pending, Atop(s.txns[t].pending, puts, dels), s.txns[u].pending;
    NotBlocked(s, t, u, puts, dels);
    assert Separate(s.rows, before, q) && Separate(s.rows, q, before) && Unique(See(s.rows, q));
    hide KeysKept, Blocked, Unique, See;
    OursSeparate(s.rows, before, q, puts, dels);
    TheirsSeparate(s.rows, before, q, puts, dels);
  }

  lemma OursSeparate(rows: Table, before: Pending<RowId, Row>, q: Pending<RowId, Row>, puts: Table, dels: set<RowId>)
    requires Separate(rows, before, q) && (forall id :: Touches(q, id) ==> id !in puts && id !in dels)
    requires forall i, j :: i in puts && j in q.puts ==> !SameKey(puts[i], q.puts[j])
    requires forall i, j :: i in puts && Touches(q, j) && j in rows ==> !SameKey(puts[i], rows[j])
    ensures Separate(rows, Atop(before, puts, dels), q)
  {
    hide SameKey;
  }

  lemma TheirsSeparate(rows: Table, before: Pending<RowId, Row>, q: Pending<RowId, Row>, puts: Table,
                       dels: set<RowId>)
    requires Separate(rows, q, before) && (forall id :: Touches(q, id) ==> id !in puts && id !in dels)
    requires forall i, j :: i in puts && j in q.puts ==> !SameKey(puts[i], q.puts[j])
    requires Unique(See(rows, q))
    ensures Separate(rows, q, Atop(before, puts, dels))
  {
    var p := Atop(before, puts, dels);
    forall i, j | i in q.puts && Touches(p, j) && j in rows ensures !SameKey(q.puts[i], rows[j]) {
      if !Touches(before, j) {
        SeenApart(rows, q, i, j);
      }
    }
    hide Unique, See;
  }

  /** A key a transaction has written is not that of a committed row it has left alone. */
  lemma SeenApart(rows: Table, q: Pending<RowId, Row>, i: RowId, j: RowId)
    requires Unique(See(rows, q)) && i in q.puts && j in rows && !Touches(q, j)
    ensures !SameKey(q.puts[i], rows[j])
  {
    var table := See(rows, q);
    assert i in table && j in table && table[i] == q.puts[i] && table[j] == rows[j];
  }

  lemma StatementUnique(table: Table, puts: Table, dels: set<RowId>)
    requires Unique(table) && !Clashes((table - dels) + puts, puts)
    ensures Unique((table - dels) + puts)
  {
    var after := (table - dels) + puts;
    forall i, j | i in after && j in after && after[i].org == after[j].org && after[i].key == after[j].key
      ensures i == j {
      if i in puts {
        assert j != i ==> SameKey(puts[i], after[j]);
      } else if j in puts {
        assert i != j ==> SameKey(puts[j], after[i]);
      }
    }
  }

  lemma AppliedKeeps(s: State, t: TxnId, puts: Table, dels: set<RowId>, answer: Answer)
    requires KeysKept(s) && t in s.txns
    ensures KeysKept(With(s, t, Applied(s, t, puts, dels, answer)))
  {
    var x, y := s.txns[t], Applied(s, t, puts, dels, answer);
    hide Unique, Separate, See, Atop, Passes;
    if y.pending == x.pending {
      SamePendingKeeps(s, t, y, s.conns);
    } else {
      hide KeysKept;
      AppliedIs(s, t, puts, dels, answer);
      WrittenKeeps(s, t, puts, dels, y);
    }
  }

  lemma AppliedIs(s: State, t: TxnId, puts: Table, dels: set<RowId>, answer: Answer)
    requires t in s.txns && Applied(s, t, puts, dels, answer).pending != s.txns[t].pending
    ensures Applied(s, t, puts, dels, answer).pending == Atop(s.txns[t].pending, puts, dels)
    ensures !Blocked(s, t, puts, dels) && !Clashes(See(s.rows, Atop(s.txns[t].pending, puts, dels)), puts)
  {
    hide Blocked, Clashes, See, Atop, Passes;
  }

  lemma WrittenKeeps(s: State, t: TxnId, puts: Table, dels: set<RowId>, y: Txn)
    requires KeysKept(s) && t in s.txns && y.pending == Atop(s.txns[t].pending, puts, dels)
    requires !Blocked(s, t, puts, dels) && !Clashes(See(s.rows, y.pending), puts)
    ensures KeysKept(With(s, t, y))
  {
    hide Blocked, Separate, Unique, Clashes, Atop;
    SeeAtop(s.rows, s.txns[t].pending, puts, dels);
    StatementUnique(See(s.rows, s.txns[t].pending), puts, dels);
    forall u | u in s.txns && u != t
      ensures Separate(s.rows, y.pending, s.txns[u].pending) && Separate(s.rows, s.txns[u].pending, y.pending) {
      StatementSeparate(s, t, u, puts, dels);
    }
    hide See;
  }

  /** What one transaction commits makes no double key with what another has written. */
  lemma CommitUnique(rows: Table, p: Pending<RowId, Row>, q: Pending<RowId, Row>)
    requires Unique(See(rows, p)) && Unique(See(rows, q)) && Separate(rows, p, q) && Separate(rows, q, p)
    ensures Unique(See(See(rows, p), q))
  {
    var after := See(See(rows, p), q);
    forall i, j | i in after && j in after && after[i].org == after[j].org && after[i].key == after[j].key
      ensures i == j {
      assert SameKey(after[i], after[j]);
      CommitApart(rows, p, q, i, j);
      CommitApart(rows, p, q, j, i);
    }
  }

  /** What one has written differs in its key from whatever the other leaves in the table. */
  lemma NewKey(rows: Table, p: Pending<RowId, Row>, q: Pending<RowId, Row>, i: RowId, j: RowId)
    requires Unique(See(rows, q)) && Separate(rows, p, q) && Separate(rows, q, p)
    requires i in q.puts && j !in q.puts && j in See(See(rows, p), q)
    ensures !SameKey(q.puts[i], See(See(rows, p), q)[j])
  {
    var mine, after := See(rows, q), See(See(rows, p), q);
    if j in p.puts {
      assert after[j] == p.puts[j];
    } else {
      assert j in rows && mine[j] == rows[j] && mine[i] == q.puts[i];
    }
  }

  lemma CommitApart(rows: Table, p: Pending<RowId, Row>, q: Pending<RowId, Row>, i: RowId, j: RowId)
    requires Unique(See(rows, p)) && Unique(See(rows, q)) && Separate(rows, p, q) && Separate(rows, q, p)
    requires i in See(See(rows, p), q) && j in See(See(rows, p), q)
    requires SameKey(See(See(rows, p), q)[i], See(See(rows, p), q)[j])
    ensures i in q.puts ==> i == j
    ensures i !in q.puts && j !in q.puts ==> i == j
  {
    var before, mine, after := See(rows, p), See(rows, q), See(See(rows, p), q);
    if i in q.puts {
      if j !in q.puts {
        NewKey(rows, p, q, i, j);
      } else {
        assert mine[i] == q.puts[i] && mine[j] == q.puts[j];
      }
    } else if j !in q.puts {
      assert before[i] == after[i] && before[j] == after[j];
    }
  }

  lemma CommitSeparate(rows: Table, p: Pending<RowId, Row>, q: Pending<RowId, Row>, r: Pending<RowId, Row>)
    requires Separate(rows, q, r) && Separate(rows, p, r)
    ensures Separate(See(rows, p), q, r)
  {
    forall i, j | i in q.puts && Touches(r, j) && j in See(rows, p) ensures !SameKey(q.puts[i], See(rows, p)[j]) {
      assert !Touches(p, j);
    }
  }

  lemma EndKeeps(s: State, a: Action)
    requires KeysKept(s) && a.op.End?
    ensures KeysKept(Step(s, a))
  {
    hide Unique, Separate, See;
    if a.t in s.txns && s.txns[a.t].open {
      var t, x := a.t, s.txns[a.t];
      var y := x.(open := false, local := Unset, pending := Clean());
      if a.op.keep && !x.failed {
        CommitKeeps(s, t, y, s.conns[x.conn := Reset(s, x)]);
      } else {
        SamePendingKeeps(s, t, y, s.conns[x.conn := Reset(s, x)]);
      }
    }
  }

  lemma CommitKeeps(s: State, t: TxnId, y: Txn, conns: map<ConnId, Setting>)
    requires KeysKept(s) && t in s.txns && y.pending == Clean()
    ensures KeysKept(State(See(s.rows, s.txns[t].pending), conns, s.txns[t := y]))
  {
    hide Unique, Separate, See;
    var p, rows' := s.txns[t].pending, See(s.rows, s.txns[t].pending);
    var s' := State(rows', conns, s.txns[t := y]);
    forall u | u in s'.txns ensures Unique(See(rows', s'.txns[u].pending)) {
      if u == t {
        SeeClean(rows');
      } else {
        CommitUnique(s.rows, p, s.txns[u].pending);
      }
    }
    forall u, v | u in s'.txns && v in s'.txns && u != v
      ensures Separate(rows', s'.txns[u].pending, s'.txns[v].pending) {
      if u == t || v == t {
        CleanSeparate(rows', s'.txns[u].pending, s'.txns[v].pending);
      } else {
        CommitSeparate(s.rows, p, s.txns[u].pending, s.txns[v].pending);
      }
    }
  }

  lemma CleanSeparate(rows: Table, p: Pending<RowId, Row>, q: Pending<RowId, Row>)
    requires p == Clean() || q == Clean()
    ensures Separate(rows, p, q)
  {
  }

  lemma StepKeepsKeys(s: State, a: Action)
    requires KeysKept(s)
    ensures KeysKept(Step(s, a))
  {
    hide KeysKept, Statement, Idle;
    match a.op
    case Begin(conn) =>
      if !(a.t in s.txns || !Idle(s, conn)) {
        SamePendingKeeps(s, a.t, Txn(conn, true, false, Unset, 0, Clean(), []), s.conns);
      }
    case End(_) => EndKeeps(s, a);
    case _ =>
      if a.t in s.txns && s.txns[a.t].open {
        if s.txns[a.t].failed {
          SamePendingKeeps(s, a.t, Told(s.txns[a.t], Refused), s.conns);
        } else {
          StatementKeeps(s, a.t, a.op);
        }
      }
  }

  lemma StatementKeeps(s: State, t: TxnId, op: Op)
    requires KeysKept(s) && t in s.txns
    ensures KeysKept(With(s, t, Statement(s, t, op)))
  {
    hide KeysKept, Applied, View, Puts, Dels;
    var x, view := s.txns[t], View(s, s.txns[t]);
    match op
    case Write(rewrite) =>
      var result := rewrite(view);
      AppliedKeeps(s, t, Puts(view, result), Dels(view, result), Changed(Puts(view, result).Keys + Dels(view, result)));
    case Insert(make) =>
      AppliedKeeps(s, t, map[RowId(t, x.drawn) := make(view)], {}, Made(RowId(t, x.drawn), make(view)));
    case _ => SamePendingKeeps(s, t, Statement(s, t, op), s.conns);
  }

  /** Whatever all the organisations' transactions do, and however they interleave, no organisation ever has two
      committed rows with one key. */
  lemma {:induction false} KeysStayUnique(s0: State, run: seq<Action>)
    requires s0.txns == map[] && Unique(s0.rows)
    ensures KeysKept(Exec(s0, run)) && Unique(Exec(s0, run).rows)
  {
    if run != [] {
      KeysStayUnique(s0, run[..|run| - 1]);
      StepKeepsKeys(Exec(s0, run[..|run| - 1]), run[|run| - 1]);
    }
  }
}
