/** A table under READ COMMITTED: what is committed, and what one open transaction has written over it. */
module Tables {

  /** Rows an open transaction has inserted or updated, and rows it has deleted. */
  datatype Pending<K, V> = Pending(puts: map<K, V>, dels: set<K>)

  function Clean<K, V>(): Pending<K, V> {
    Pending(map[], {})
  }

  /** What a statement of the transaction sees, and what committing it leaves: its own writes over the
      committed rows. */
  function See<K, V>(committed: map<K, V>, p: Pending<K, V>): map<K, V> {
    (committed - p.dels) + p.puts
  }

  function Put<K, V>(p: Pending<K, V>, k: K, v: V): Pending<K, V> {
    p.(puts := p.puts[k := v])
  }

  function Remove<K, V>(p: Pending<K, V>, ks: set<K>): Pending<K, V> {
    Pending(p.puts - ks, p.dels + ks)
  }

  /** The row, or the unique key, is locked by this transaction until it ends. */
  predicate Touches<K, V>(p: Pending<K, V>, k: K) {
    k in p.puts || k in p.dels
  }

  lemma SeeClean<K, V>(committed: map<K, V>)
    ensures See(committed, Clean()) == committed
  {
  }

  /** A row put is seen by the next statement, over whatever was there. */
  lemma SeePut<K, V>(committed: map<K, V>, p: Pending<K, V>, k: K, v: V)
    ensures See(committed, Put(p, k, v)) == See(committed, p)[k := v]
  {
  }

  /** Deleting every committed row and inserting others replaces the table. */
  lemma SeeReplaced<K, V>(committed: map<K, V>, rows: map<K, V>)
    ensures See(committed, Pending(rows, committed.Keys)) == rows
  {
    assert committed - committed.Keys == map[];
  }
}
