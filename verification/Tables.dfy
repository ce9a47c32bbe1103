/** What the components share about database tables. */
module Tables {

  // a nullable column
  datatype Option<+T> = None | Some(value: T)

  // INSERT ... ON CONFLICT DO NOTHING
  function InsertIfAbsent<K(==), V>(rows: map<K, V>, key: K, row: V): map<K, V> {
    if key in rows then rows else rows[key := row]
  }

  // an id that no row has
  lemma {:induction false} UnusedId(used: set<nat>) returns (id: nat)
    ensures forall x | x in used :: x < id
    decreases used
  {
    id := 0;
    if x :| x in used {
      var rest := UnusedId(used - {x});
      id := if x < rest then rest else x + 1;
      assert forall y | y in used :: y == x || y in used - {x};
    }
  }
}
