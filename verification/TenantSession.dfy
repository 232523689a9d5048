/** One pooled connection used by one request after another: each method is a step of the shared state machine. */
module TenantSession {
  import opened Wrappers
  import opened Tables
  import opened TenantScoping

  /** On one connection nobody else is in the middle of anything. */
  lemma NobodyElse(s: State, t: TxnId, puts: Table, dels: set<RowId>)
    requires forall u :: u in s.txns && u != t ==> s.txns[u].pending == Clean()
    ensures !Blocked(s, t, puts, dels)
  {
  }

  lemma NoLeftover(s: State)
    requires Inv(s)
    ensures forall c :: c in s.conns ==> !s.conns[c].OrgId?
  {
  }

  lemma OwnKeeps(s: State, t: TxnId, y: Txn)
    requires Inv(s) && OwnWrites(t, y)
    ensures Inv(With(s, t, y))
  {
  }

  // ---- What each statement does, without the state machine ----------------------------------

  /** What the transaction sees of the table: the rows of its organisation, once it has set it, with its own writes. */
  ghost predicate Sees(rows: Table, t: TxnId, x: Txn, view: Table) {
    var table := See(rows, x.pending);
    forall id ::
      && (id in view <==> x.local != Unset && id in table && table[id].org == t.org)
      && (id in view ==> view[id] == table[id])
  }

  /** Another row has this row's key. */
  ghost predicate Taken(table: Table, id: RowId, row: Row) {
    exists other :: other in table && other != id && table[other].org == row.org && table[other].key == row.key
  }

  /** Whether a row may go in: one of the organisation the transaction has set, and with a key nobody has. */
  ghost predicate MayWrite(rows: Table, t: TxnId, x: Txn, id: RowId, row: Row) {
    x.local != Unset && row.org == t.org && !Taken(See(rows, x.pending), id, row)
  }

  ghost predicate SameSession(x: Txn, y: Txn) {
    y.conn == x.conn && y.open == x.open && y.local == x.local
  }

  /** The statement is refused, and the transaction with it. */
  ghost predicate RefusedNow(x: Txn, y: Txn) {
    SameSession(x, y) && y.failed && y.pending == x.pending && y.answers == x.answers + [Refused]
  }

  lemma SeesView(s: State, t: TxnId)
    requires Inv(s) && t in s.txns
    ensures Sees(s.rows, t, s.txns[t], View(s, s.txns[t]))
  {
    var x := s.txns[t];
    assert OwnWrites(t, x);
  }

  /** One row written by a transaction that nobody stands in the way of. */
  lemma OnePut(s: State, t: TxnId, id: RowId, row: Row, answer: Answer)
    requires Inv(s) && t in s.txns && !s.txns[t].failed && answer != Refused
    requires forall u :: u in s.txns && u != t ==> s.txns[u].pending == Clean()
    ensures var x, y := s.txns[t], Applied(s, t, map[id := row], {}, answer);
      if MayWrite(s.rows, t, x, id, row) then
        && SameSession(x, y) && !y.failed && y.answers == x.answers + [answer]
        && y.drawn == x.drawn + (if answer.Made? then 1 else 0)
        && See(s.rows, y.pending) == See(s.rows, x.pending)[id := row]
      else RefusedNow(x, y)
  {
    var x, puts := s.txns[t], map[id := row];
    NobodyElse(s, t, puts, {});
    PassesSet(s, t, row);
    SeeAtop(s.rows, x.pending, puts, {});
    var table := See(s.rows, Atop(x.pending, puts, {}));
    assert table == See(s.rows, x.pending)[id := row];
    OneClash(See(s.rows, x.pending), id, row);
    hide See, Atop, Clashes, Blocked, Passes, Inv, Taken;
    assert (exists r :: r in puts && !Passes(s, x, puts[r])) <==> !Passes(s, x, row) by {
      assert id in puts && puts[id] == row;
    }
  }

  lemma PassesSet(s: State, t: TxnId, row: Row)
    requires Inv(s) && t in s.txns
    ensures Passes(s, s.txns[t], row) <==> s.txns[t].local != Unset && row.org == t.org
  {
    assert OwnWrites(t, s.txns[t]);
  }

  lemma OneClash(table: Table, id: RowId, row: Row)
    ensures Clashes(table[id := row], map[id := row]) <==> Taken(table, id, row)
  {
    var puts := map[id := row];
    assert id in puts && puts[id] == row;
    if Taken(table, id, row) {
      var other :| other in table && other != id && table[other].org == row.org && table[other].key == row.key;
      assert other in table[id := row] && SameKey(puts[id], table[id := row][other]);
    }
  }

  class Connection {
    const conn: ConnId
    var rows: Table                   // committed
    var outside: Setting              // the connection's own value of `app.current_org_id`
    var txns: map<TxnId, Txn>         // every transaction it has served
    var current: Option<TxnId>        // the one that is open

    constructor (conn: ConnId, rows: Table)
      requires OwnRows(rows)
      ensures Valid() && current == None && Now() == State(rows, map[conn := Unset], map[]) && this.conn == conn
    {
      this.conn, this.rows, outside, txns, current := conn, rows, Unset, map[], None;
    }

    function Now(): State
      reads this
    {
      var unused: map<ConnId, Setting> := map[];
      State(rows, unused[conn := outside], txns)
    }

    ghost predicate Valid()
      reads this
    {
      && Inv(Now())
      && (current.Some? ==> current.value in txns)
      && (forall t :: t in txns ==> txns[t].conn == conn && (txns[t].open <==> current == Some(t)))
      && (forall t :: t in txns && current != Some(t) ==> txns[t].pending == Clean())
    }

    /** Begin, and set the organisation for this transaction only, unless the request is anonymous. */
    method SessionForOrg(t: TxnId, anonymous: bool)
      requires Valid() && current == None && t !in txns
      modifies this
      ensures Valid() && current == Some(t) && !txns[t].failed
      ensures var begun := Step(old(Now()), Action(t, Begin(conn)));
        Now() == if anonymous then begun else Step(begun, Action(t, Bind))
      ensures View(Now(), txns[t]) == if anonymous then map[] else RowsOf(rows, t.org)
    {
      StepKeeps(Now(), Action(t, Begin(conn)));
      assert Idle(Now(), conn);
      txns := txns[t := Txn(conn, true, false, Unset, 0, Clean(), [])];
      current := Some(t);
      if !anonymous {
        BindSessionToOrg();
      }
      SeeClean(rows);
      ViewIsOwn(Now(), t);
    }

    /** A transaction opened anonymously takes effect as the principal it has just established. */
    method BindSessionToOrg()
      requires Valid() && current.Some? && !txns[current.value].failed
      modifies this`txns
      ensures Valid() && Now() == Step(old(Now()), Action(current.value, Bind))
      ensures txns == old(txns)[current.value := old(txns)[current.value].(local := OrgId(current.value.org))]
    {
      StepKeeps(Now(), Action(current.value, Bind));
      txns := txns[current.value := txns[current.value].(local := OrgId(current.value.org))];
    }

    /** Answers with what the policy lets through; a failed transaction answers nothing more. */
    method Select() returns (view: Option<Table>)
      requires Valid() && current.Some?
      modifies this`txns
      ensures Valid() && Now() == Step(old(Now()), Action(current.value, Read))
      ensures view == if old(txns)[current.value].failed then None else Some(View(old(Now()), old(txns)[current.value]))
      ensures view.Some? ==> Sees(rows, current.value, old(txns)[current.value], view.value)
      ensures var (x, y) := (old(txns)[current.value], txns[current.value]);
        if x.failed then RefusedNow(x, y) else y == x.(answers := x.answers + [Rows(view.value)])
    {
      SeesView(Now(), current.value);
      hide Sees;
      StepKeeps(Now(), Action(current.value, Read));
      var x := txns[current.value];
      view := if x.failed then None else Some(View(Now(), x));
      txns := txns[current.value := Told(x, if view.None? then Refused else Rows(view.value))];
    }

    /** Rows and deletions of one statement: policy, unique constraint, then in. */
    method Put(puts: Table, dels: set<RowId>, answer: Answer)
      requires Valid() && current.Some? && !txns[current.value].failed && OwnStatement(current.value, puts, dels)
      modifies this`txns
      ensures Valid()
      ensures txns == old(txns)[current.value := Applied(old(Now()), current.value, puts, dels, answer)]
    {
      var t, x := current.value, txns[current.value];
      var after := Atop(x.pending, puts, dels);
      AppliedOwn(Now(), t, puts, dels, answer);
      AppliedStaysOpen(Now(), t, puts, dels, answer);
      NobodyElse(Now(), t, puts, dels);
      var y := x;
      if exists r :: r in puts && !Passes(Now(), x, puts[r]) {
        y := Told(x, Refused).(failed := true);
      } else if Clashes(See(rows, after), puts) {
        y := Told(x, Refused).(failed := true);
      } else {
        y := Told(x, answer).(pending := after, drawn := if answer.Made? then x.drawn + 1 else x.drawn);
      }
      assert y == Applied(Now(), t, puts, dels, answer);
      hide Applied;
      OwnKeeps(Now(), t, y);
      hide Inv;
      txns := txns[t := y];
    }

    method Insert(row: Row)
      requires Valid() && current.Some?
      modifies this`txns
      ensures Valid() && Now() == Step(old(Now()), Action(current.value, TenantScoping.Insert((view: Table) => row)))
      ensures var (t, x, y) := (current.value, old(txns)[current.value], txns[current.value]);
        var id := RowId(t, x.drawn);
        if x.failed || !MayWrite(rows, t, x, id, row) then RefusedNow(x, y)
        else
          && SameSession(x, y) && !y.failed && y.answers == x.answers + [Made(id, row)] && y.drawn == x.drawn + 1
          && See(rows, y.pending) == See(rows, x.pending)[id := row]
    {
      var t, x := current.value, txns[current.value];
      if !x.failed {
        OnePut(Now(), t, RowId(t, x.drawn), row, Made(RowId(t, x.drawn), row));
      }
      hide MayWrite;
      if x.failed {
        txns := txns[t := Told(x, Refused)];
      } else {
        InsertOwn(t, x.drawn, row);
        Put(map[RowId(t, x.drawn) := row], {}, Made(RowId(t, x.drawn), row));
      }
    }

    /** `UPDATE ... WHERE id`: of the rows it sees, the one with this id. */
    method Update(id: RowId, row: Row)
      requires Valid() && current.Some?
      modifies this`txns
      ensures Valid() && Now() == Step(old(Now()), Action(current.value, Write(SetRow(id, row))))
      ensures var (t, x, y) := (current.value, old(txns)[current.value], txns[current.value]);
        if x.failed then RefusedNow(x, y) else SetsOne(rows, t, x, y, id, row)
    {
      var t, x := current.value, txns[current.value];
      if !x.failed {
        SetOne(Now(), t, id, row);
      }
      hide SetsOne;
      if x.failed {
        txns := txns[t := Told(x, Refused)];
      } else {
        var view := View(Now(), x);
        var result := SetRow(id, row)(view);
        RewriteOwn(Now(), t, result);
        Put(Puts(view, result), Dels(view, result), Changed(Puts(view, result).Keys + Dels(view, result)));
      }
    }

    /** Leaving the block. An exception, or a statement that was refused, leaves every row as it was; either way the
        organisation is forgotten. */
    method Close(raised: bool)
      requires Valid() && current.Some?
      modifies this
      ensures Valid() && current == None && Now() == Step(old(Now()), Action(old(current).value, End(!raised)))
      ensures var x := old(txns)[old(current).value];
        rows == if raised || x.failed then old(rows) else See(old(rows), x.pending)
      ensures !outside.OrgId?
    {
      hide Statement, Idle, Inv, See;
      NoLeftover(Now());
      StepKeeps(Now(), Action(current.value, End(!raised)));
      var t, x := current.value, txns[current.value];
      if !raised && !x.failed {
        rows := See(rows, x.pending);
      }
      if outside == Unset && x.local != Unset {
        outside := Empty;
      }
      txns := txns[t := x.(open := false, local := Unset, pending := Clean())];
      current := None;
      assert Now() == Step(old(Now()), Action(t, End(!raised)));
    }
  }

  function SetRow(id: RowId, row: Row): Table -> Table {
    (view: Table) => if id in view then view[id := row] else view
  }

  /** What an UPDATE of one row by id does: to nothing it sees, to a row it leaves as it is, or to that row. */
  ghost predicate SetsOne(rows: Table, t: TxnId, x: Txn, y: Txn, id: RowId, row: Row) {
    var table := See(rows, x.pending);
    if x.local == Unset || id !in table || table[id].org != t.org || table[id] == row then
      y == x.(answers := x.answers + [Changed({})])
    else if !MayWrite(rows, t, x, id, row) then RefusedNow(x, y)
    else
      && SameSession(x, y) && !y.failed && y.answers == x.answers + [Changed({id})]
      && See(rows, y.pending) == table[id := row]
  }

  lemma SetOne(s: State, t: TxnId, id: RowId, row: Row)
    requires Inv(s) && t in s.txns && (forall u :: u in s.txns && u != t ==> s.txns[u].pending == Clean())
    requires !s.txns[t].failed
    ensures SetsOne(s.rows, t, s.txns[t], Statement(s, t, Write(SetRow(id, row))), id, row)
  {
    var x, view := s.txns[t], View(s, s.txns[t]);
    hide Inv, View, See, MayWrite, RefusedNow, Applied;
    SeesView(s, t);
    SetRowWrites(view, id, row);
    SetRowIs(s, t, id, row);
    hide Puts, Dels, SetRow, Statement;
    if id in view && view[id] != row {
      OnePut(s, t, id, row, Changed({id}));
    } else {
      NobodyElse(s, t, map[], {});
      NothingPut(s, t);
    }
  }

  lemma SetRowIs(s: State, t: TxnId, id: RowId, row: Row)
    requires t in s.txns
    ensures var view := View(s, s.txns[t]); var result := SetRow(id, row)(view);
      Statement(s, t, Write(SetRow(id, row)))
      == Applied(s, t, Puts(view, result), Dels(view, result), Changed(Puts(view, result).Keys + Dels(view, result)))
  {
    hide View, Puts, Dels, Applied, SetRow;
  }

  lemma SetRowWrites(view: Table, id: RowId, row: Row)
    ensures var result := SetRow(id, row)(view); var changed := Puts(view, result).Keys + Dels(view, result);
      if id in view && view[id] != row then
        Puts(view, result) == map[id := row] && Dels(view, result) == {} && changed == {id}
      else Puts(view, result) == map[] && Dels(view, result) == {} && changed == {}
  {
  }

  lemma NothingPut(s: State, t: TxnId)
    requires t in s.txns && !Blocked(s, t, map[], {})
    ensures Applied(s, t, map[], {}, Changed({})) == s.txns[t].(answers := s.txns[t].answers + [Changed({})])
  {
    hide Blocked;
    var x := s.txns[t];
    assert Atop(x.pending, map[], {}) == x.pending;
  }

  lemma AppliedStaysOpen(s: State, t: TxnId, puts: Table, dels: set<RowId>, answer: Answer)
    requires t in s.txns
    ensures var y := Applied(s, t, puts, dels, answer); y.open == s.txns[t].open && y.conn == s.txns[t].conn
  {
  }
}
