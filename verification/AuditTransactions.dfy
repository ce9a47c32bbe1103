/** appendAuditEvent under concurrent transactions (src/audit/hash-chain.ts, READ COMMITTED).

    Any number of transactions over any tenants interleave at every statement: taking the tenant's
    advisory lock, reading the last visible row, drawing a sequence number and inserting, committing,
    aborting, and (after the commit or abort has taken effect) releasing the locks. */
module AuditTransactions {
  import opened Tables
  import opened Json
  import opened AuditChain

  type Table = map<nat, Row> // by chain_sequence
  type TxId = nat
  type LockKey = JsString -> int // hashtextextended: two tenants may share a key

  datatype Pending =
    | NoAppend
    | Locked(tenant: JsString)
    | HasRead(tenant: JsString, previous: Option<JsString>)

  datatype Tx = Tx(active: bool, rows: Table, locks: set<int>, pending: Pending)

  datatype State = State(committed: Table, nextSequence: nat, txs: map<TxId, Tx>)

  datatype Step =
    | Begin(tx: TxId)
    | Lock(tx: TxId, tenant: JsString)
    | Read(tx: TxId)
    | Insert(tx: TxId, input: AppendInput, eventId: JsString, occurredAt: JsString)
    | Commit(tx: TxId)
    | Abort(tx: TxId)
    | Release(tx: TxId)

  // ---------------------------------------------------------------- what a statement sees

  // SELECT ... ORDER BY chain_sequence, over the rows numbered below n
  function InSequence(table: Table, n: nat): seq<Row> {
    if n == 0 then []
    else InSequence(table, n - 1) + (if n - 1 in table then [table[n - 1]] else [])
  }

  function Chain(table: Table, n: nat, tenant: JsString): seq<Row> {
    TenantRows(InSequence(table, n), tenant)
  }

  // READ COMMITTED: committed rows and the transaction's own
  function Visible(s: State, tx: Tx): Table {
    s.committed + tx.rows
  }

  // ---------------------------------------------------------------- steps

  predicate Enabled(s: State, step: Step, lockKey: LockKey) {
    match step
    case Begin(tx) => tx !in s.txs
    case Lock(tx, tenant) =>
      tx in s.txs && s.txs[tx].active && s.txs[tx].pending == NoAppend
      && forall other | other in s.txs && other != tx :: lockKey(tenant) !in s.txs[other].locks
    case Read(tx) => tx in s.txs && s.txs[tx].active && s.txs[tx].pending.Locked?
    case Insert(tx, input, _, _) =>
      tx in s.txs && s.txs[tx].active && s.txs[tx].pending.HasRead? && s.txs[tx].pending.tenant == input.tenantId
    case Commit(tx) => tx in s.txs && s.txs[tx].active && s.txs[tx].pending == NoAppend
    case Abort(tx) => tx in s.txs && s.txs[tx].active
    case Release(tx) => tx in s.txs && !s.txs[tx].active
  }

  function Next(s: State, step: Step, eh: EventHasher, lockKey: LockKey): State
    requires Enabled(s, step, lockKey)
  {
    match step
    case Begin(tx) => s.(txs := s.txs[tx := Tx(true, map[], {}, NoAppend)])
    case Lock(tx, tenant) =>
      var t := s.txs[tx];
      s.(txs := s.txs[tx := t.(locks := t.locks + {lockKey(tenant)}, pending := Locked(tenant))])
    case Read(tx) =>
      var t := s.txs[tx];
      var previous := LastHash(Chain(Visible(s, t), s.nextSequence, t.pending.tenant));
      s.(txs := s.txs[tx := t.(pending := HasRead(t.pending.tenant, previous))])
    case Insert(tx, input, eventId, occurredAt) =>
      var t := s.txs[tx];
      var event := NewEvent(t.pending.previous, input, eventId, occurredAt);
      s.(nextSequence := s.nextSequence + 1,
         txs := s.txs[tx := t.(rows := t.rows[s.nextSequence := Row(event, eh(event))], pending := NoAppend)])
    case Commit(tx) =>
      var t := s.txs[tx];
      s.(committed := Visible(s, t), txs := s.txs[tx := t.(active := false, rows := map[])])
    case Abort(tx) =>
      var t := s.txs[tx];
      s.(txs := s.txs[tx := t.(active := false, rows := map[], pending := NoAppend)])
    case Release(tx) => s.(txs := s.txs - {tx})
  }

  const INITIAL := State(map[], 1, map[])

  // a run of any length from the empty table
  ghost predicate IsRun(states: seq<State>, steps: seq<Step>, eh: EventHasher, lockKey: LockKey) {
    && |states| == |steps| + 1 && states[0] == INITIAL
    && forall i | 0 <= i < |steps| ::
         Enabled(states[i], steps[i], lockKey) && states[i + 1] == Next(states[i], steps[i], eh, lockKey)
  }

  // ---------------------------------------------------------------- the invariant

  ghost predicate Below(table: Table, n: nat) {
    forall k | k in table :: k < n
  }

  ghost predicate HoldsLocks(tx: Tx, lockKey: LockKey) {
    && (forall k | k in tx.rows :: lockKey(tx.rows[k].event.tenantId) in tx.locks)
    && (tx.pending != NoAppend ==> lockKey(tx.pending.tenant) in tx.locks)
  }

  // own rows of a tenant come after the tenant's committed rows
  ghost predicate After(committed: Table, rows: Table) {
    forall k, l | k in committed && l in rows && committed[k].event.tenantId == rows[l].event.tenantId :: k < l
  }

  ghost predicate AllLinked(eh: EventHasher, table: Table, n: nat) {
    forall t :: Linked(eh, Chain(table, n, t))
  }

  ghost predicate TxInv(s: State, tx: Tx, eh: EventHasher, lockKey: LockKey) {
    && Below(tx.rows, s.nextSequence)
    && HoldsLocks(tx, lockKey)
    && tx.rows.Keys !! s.committed.Keys
    && After(s.committed, tx.rows)
    && AllLinked(eh, Visible(s, tx), s.nextSequence)
    && (tx.pending.HasRead? ==>
          tx.pending.previous == LastHash(Chain(Visible(s, tx), s.nextSequence, tx.pending.tenant)))
  }

  ghost predicate Inv(s: State, eh: EventHasher, lockKey: LockKey) {
    && Below(s.committed, s.nextSequence)
    && AllLinked(eh, s.committed, s.nextSequence)
    && (forall a | a in s.txs :: TxInv(s, s.txs[a], eh, lockKey))
    && (forall a, b | a in s.txs && b in s.txs && a != b :: Apart(s.txs[a], s.txs[b]))
  }

  ghost predicate Apart(a: Tx, b: Tx) {
    a.locks !! b.locks && a.rows.Keys !! b.rows.Keys
  }

  // ---------------------------------------------------------------- chains of tables that agree on a tenant

  ghost predicate AgreeOn(a: Table, b: Table, t: JsString) {
    forall k :: (k in a && a[k].event.tenantId == t) <==> (k in b && b[k].event.tenantId == t)
  }

  ghost predicate SameRowsOn(a: Table, b: Table, t: JsString) {
    && AgreeOn(a, b, t)
    && forall k | k in a && k in b && a[k].event.tenantId == t :: a[k] == b[k]
  }

  lemma ChainStep(table: Table, n: nat, t: JsString)
    ensures Chain(table, n + 1, t)
         == if n in table && table[n].event.tenantId == t then Chain(table, n, t) + [table[n]] else Chain(table, n, t)
  {
    if n in table {
      TenantRowsSnoc(InSequence(table, n), table[n], t);
    } else {
      assert InSequence(table, n + 1) == InSequence(table, n);
    }
  }

  lemma NothingBelowZero(table: Table, t: JsString)
    ensures Chain(table, 0, t) == []
  {
  }

  lemma SameRowAt(a: Table, b: Table, k: nat, t: JsString)
    requires SameRowsOn(a, b, t)
    ensures k in a && a[k].event.tenantId == t ==> k in b && b[k] == a[k]
    ensures k in b && b[k].event.tenantId == t ==> k in a && a[k] == b[k]
  {
  }

  lemma {:induction false} ChainFrame(a: Table, b: Table, n: nat, t: JsString)
    requires SameRowsOn(a, b, t)
    ensures Chain(a, n, t) == Chain(b, n, t)
  {
    hide Chain, SameRowsOn;
    NothingBelowZero(a, t);
    NothingBelowZero(b, t);
    if n > 0 {
      SameRowAt(a, b, n - 1, t);
      ChainFrame(a, b, n - 1, t);
      ChainStep(a, n - 1, t);
      ChainStep(b, n - 1, t);
    }
  }

  // up to a committed row of the tenant there are no rows of `b`
  lemma {:induction false} NothingYet(a: Table, b: Table, k: nat, t: JsString, n: nat)
    requires After(a, b) && a.Keys !! b.Keys && k in a && a[k].event.tenantId == t && n <= k
    ensures Chain(a + b, n, t) == Chain(a, n, t)
  {
    hide Chain;
    NothingBelowZero(a, t);
    NothingBelowZero(a + b, t);
    if n > 0 {
      NothingYet(a, b, k, t, n - 1);
      ChainStep(a, n - 1, t);
      ChainStep(a + b, n - 1, t);
    }
  }

  lemma {:induction false} ChainExtends(a: Table, b: Table, n: nat, t: JsString)
    requires After(a, b) && a.Keys !! b.Keys
    ensures Chain(a, n, t) <= Chain(a + b, n, t)
  {
    hide Chain;
    NothingBelowZero(a, t);
    NothingBelowZero(a + b, t);
    if n > 0 {
      var k := n - 1;
      ChainStep(a, k, t);
      ChainStep(a + b, k, t);
      if k in a && a[k].event.tenantId == t {
        NothingYet(a, b, k, t, k);
      } else {
        ChainExtends(a, b, k, t);
      }
    }
  }

  // ---------------------------------------------------------------- each step keeps the invariant

  lemma LocalStepKeepsInv(s: State, s': State, id: TxId, eh: EventHasher, lockKey: LockKey)
    requires Inv(s, eh, lockKey)
    requires s'.committed == s.committed && s'.nextSequence == s.nextSequence && id in s'.txs
    requires s'.txs == s.txs[id := s'.txs[id]]
    requires TxInv(s, s'.txs[id], eh, lockKey)
    requires forall other | other in s.txs && other != id :: Apart(s'.txs[id], s.txs[other])
    ensures Inv(s', eh, lockKey)
  {
    forall a | a in s'.txs ensures TxInv(s', s'.txs[a], eh, lockKey) {
      assert TxInv(s, s'.txs[a], eh, lockKey);
      assert Visible(s', s'.txs[a]) == Visible(s, s'.txs[a]);
    }
    forall a, b | a in s'.txs && b in s'.txs && a != b ensures Apart(s'.txs[a], s'.txs[b]) {
      if a == id {
        assert Apart(s'.txs[id], s.txs[b]);
      } else if b == id {
        assert Apart(s'.txs[id], s.txs[a]);
      } else {
        assert Apart(s.txs[a], s.txs[b]);
      }
    }
  }

  lemma ClearedTxInv(s: State, tx: Tx, eh: EventHasher, lockKey: LockKey)
    requires Inv(s, eh, lockKey) && tx.rows == map[] && tx.pending == NoAppend
    ensures TxInv(s, tx, eh, lockKey)
  {
    assert Visible(s, tx) == s.committed;
  }

  lemma SmallStepKeepsInv(s: State, step: Step, eh: EventHasher, lockKey: LockKey)
    requires Inv(s, eh, lockKey) && Enabled(s, step, lockKey)
    requires step.Begin? || step.Lock? || step.Read? || step.Abort?
    ensures Inv(Next(s, step, eh, lockKey), eh, lockKey)
  {
    var s' := Next(s, step, eh, lockKey);
    var t' := s'.txs[step.tx];
    if step.Begin? || step.Abort? {
      ClearedTxInv(s, t', eh, lockKey);
    } else {
      assert TxInv(s, s.txs[step.tx], eh, lockKey);
      assert Visible(s, t') == Visible(s, s.txs[step.tx]);
    }
    forall other | other in s.txs && other != step.tx ensures Apart(t', s.txs[other]) {
      if step.tx in s.txs {
        assert Apart(s.txs[step.tx], s.txs[other]);
      }
    }
    LocalStepKeepsInv(s, s', step.tx, eh, lockKey);
  }

  lemma TableGrows(eh: EventHasher, before: Table, n: nat, row: Row, after: Table, m: nat)
    requires Below(before, n) && AllLinked(eh, before, n)
    requires row.eventHash == eh(row.event)
    requires row.event.previousEventHash == LastHash(Chain(before, n, row.event.tenantId))
    requires after == before[n := row] && m == n + 1
    ensures AllLinked(eh, after, m)
  {
    forall t ensures Linked(eh, Chain(after, m, t)) {
      assert Linked(eh, Chain(before, n, t));
      BelowFrame(before, n, row, t);
      ChainStep(after, n, t);
      if row.event.tenantId == t {
        AppendLinks(eh, Chain(before, n, t), row);
      }
    }
  }

  lemma TableIdle(eh: EventHasher, table: Table, n: nat, m: nat)
    requires Below(table, n) && AllLinked(eh, table, n) && m == n + 1
    ensures AllLinked(eh, table, m)
    ensures forall t :: Chain(table, m, t) == Chain(table, n, t)
  {
    forall t ensures Chain(table, m, t) == Chain(table, n, t) {
      ChainStep(table, n, t);
    }
    forall t ensures Linked(eh, Chain(table, m, t)) {
      assert Linked(eh, Chain(table, n, t));
    }
  }

  // the inserter sees its own row at the end of the chain it read
  lemma InsertedLinks(s: State, step: Step, eh: EventHasher, lockKey: LockKey)
    requires Inv(s, eh, lockKey) && Enabled(s, step, lockKey) && step.Insert?
    ensures var s' := Next(s, step, eh, lockKey); AllLinked(eh, Visible(s', s'.txs[step.tx]), s'.nextSequence)
  {
    hide AllLinked, Chain, LastHash, HoldsLocks, After, Apart;
    var s' := Next(s, step, eh, lockKey);
    var n := s.nextSequence;
    var tx, tx' := s.txs[step.tx], s'.txs[step.tx];
    assert TxInv(s, tx, eh, lockKey);
    assert Visible(s', tx') == Visible(s, tx)[n := tx'.rows[n]];
    TableGrows(eh, Visible(s, tx), n, tx'.rows[n], Visible(s', tx'), s'.nextSequence);
  }

  lemma InsertedTxInv(s: State, step: Step, eh: EventHasher, lockKey: LockKey)
    requires Inv(s, eh, lockKey) && Enabled(s, step, lockKey) && step.Insert?
    ensures var s' := Next(s, step, eh, lockKey); TxInv(s', s'.txs[step.tx], eh, lockKey)
  {
    hide AllLinked, Chain, LastHash, Apart;
    assert TxInv(s, s.txs[step.tx], eh, lockKey);
    InsertedLinks(s, step, eh, lockKey);
  }

  lemma BystanderTxInv(s: State, s': State, tx: Tx, eh: EventHasher, lockKey: LockKey)
    requires Inv(s, eh, lockKey) && TxInv(s, tx, eh, lockKey)
    requires s'.committed == s.committed && s'.nextSequence == s.nextSequence + 1
    ensures TxInv(s', tx, eh, lockKey)
  {
    assert Visible(s', tx) == Visible(s, tx);
    TableIdle(eh, Visible(s, tx), s.nextSequence, s'.nextSequence);
  }

  lemma BelowFrame(table: Table, n: nat, row: Row, t: JsString)
    ensures Chain(table[n := row], n, t) == Chain(table, n, t)
  {
    BelowFrameTo(table, n, row, n, t);
  }

  lemma {:induction false} BelowFrameTo(table: Table, n: nat, row: Row, m: nat, t: JsString)
    requires m <= n
    ensures Chain(table[n := row], m, t) == Chain(table, m, t)
  {
    hide Chain;
    NothingBelowZero(table, t);
    NothingBelowZero(table[n := row], t);
    if m > 0 {
      BelowFrameTo(table, n, row, m - 1, t);
      ChainStep(table, m - 1, t);
      ChainStep(table[n := row], m - 1, t);
    }
  }

  lemma InsertKeepsInv(s: State, step: Step, eh: EventHasher, lockKey: LockKey)
    requires Inv(s, eh, lockKey) && Enabled(s, step, lockKey) && step.Insert?
    ensures Inv(Next(s, step, eh, lockKey), eh, lockKey)
  {
    var s' := Next(s, step, eh, lockKey);
    var n := s.nextSequence;
    TableIdle(eh, s.committed, n, s'.nextSequence);
    forall a | a in s'.txs ensures TxInv(s', s'.txs[a], eh, lockKey) {
      if a == step.tx {
        InsertedTxInv(s, step, eh, lockKey);
      } else {
        BystanderTxInv(s, s', s.txs[a], eh, lockKey);
      }
    }
    forall a, b | a in s'.txs && b in s'.txs && a != b ensures Apart(s'.txs[a], s'.txs[b]) {
      assert Apart(s.txs[a], s.txs[b]);
      assert TxInv(s, s.txs[a], eh, lockKey) && TxInv(s, s.txs[b], eh, lockKey);
    }
  }

  // what another transaction sees once `u` has committed
  lemma CommitSeenByOther(s: State, u: Tx, other: Tx, eh: EventHasher, lockKey: LockKey, t: JsString)
    requires TxInv(s, u, eh, lockKey) && TxInv(s, other, eh, lockKey) && Apart(u, other)
    ensures var seen := Chain(s.committed + u.rows + other.rows, s.nextSequence, t);
            && Linked(eh, seen)
            && (lockKey(t) in other.locks ==> seen == Chain(Visible(s, other), s.nextSequence, t))
  {
    var all := s.committed + u.rows + other.rows;
    if lockKey(t) in u.locks {
      assert SameRowsOn(all, Visible(s, u), t);
      ChainFrame(all, Visible(s, u), s.nextSequence, t);
    } else {
      assert SameRowsOn(all, Visible(s, other), t);
      ChainFrame(all, Visible(s, other), s.nextSequence, t);
    }
  }

  lemma CommittedBefore(s: State, u: Tx, other: Tx, eh: EventHasher, lockKey: LockKey)
    requires TxInv(s, u, eh, lockKey) && TxInv(s, other, eh, lockKey) && Apart(u, other)
    ensures After(s.committed + u.rows, other.rows)
  {
  }

  lemma OtherAfterCommit(s: State, s': State, u: Tx, tx: Tx, eh: EventHasher, lockKey: LockKey)
    requires TxInv(s, u, eh, lockKey) && TxInv(s, tx, eh, lockKey) && Apart(u, tx)
    requires s'.committed == s.committed + u.rows && s'.nextSequence == s.nextSequence
    ensures TxInv(s', tx, eh, lockKey)
  {
    assert Visible(s', tx) == s.committed + u.rows + tx.rows;
    CommittedBefore(s, u, tx, eh, lockKey);
    forall t ensures Linked(eh, Chain(Visible(s', tx), s'.nextSequence, t)) {
      CommitSeenByOther(s, u, tx, eh, lockKey, t);
    }
    if tx.pending.HasRead? {
      CommitSeenByOther(s, u, tx, eh, lockKey, tx.pending.tenant);
    }
  }

  lemma CommittedTableSound(s: State, step: Step, eh: EventHasher, lockKey: LockKey)
    requires Inv(s, eh, lockKey) && Enabled(s, step, lockKey) && step.Commit?
    ensures Below(Next(s, step, eh, lockKey).committed, Next(s, step, eh, lockKey).nextSequence)
    ensures AllLinked(eh, Next(s, step, eh, lockKey).committed, Next(s, step, eh, lockKey).nextSequence)
  {
    hide Chain, Apart, AllLinked;
    assert TxInv(s, s.txs[step.tx], eh, lockKey);
  }

  lemma CommitterTxInv(s: State, step: Step, eh: EventHasher, lockKey: LockKey)
    requires Inv(s, eh, lockKey) && Enabled(s, step, lockKey) && step.Commit?
    ensures step.tx in Next(s, step, eh, lockKey).txs
    ensures TxInv(Next(s, step, eh, lockKey), Next(s, step, eh, lockKey).txs[step.tx], eh, lockKey)
  {
    hide Chain, Apart, AllLinked;
    var s' := Next(s, step, eh, lockKey);
    assert TxInv(s, s.txs[step.tx], eh, lockKey);
    assert Visible(s', s'.txs[step.tx]) == Visible(s, s.txs[step.tx]);
  }

  lemma CommitKeepsApart(s: State, step: Step, eh: EventHasher, lockKey: LockKey, a: TxId, b: TxId)
    requires Inv(s, eh, lockKey) && Enabled(s, step, lockKey) && step.Commit? && a in s.txs && b in s.txs && a != b
    ensures a in Next(s, step, eh, lockKey).txs && b in Next(s, step, eh, lockKey).txs
    ensures Apart(Next(s, step, eh, lockKey).txs[a], Next(s, step, eh, lockKey).txs[b])
  {
    hide Chain, AllLinked, TxInv;
    assert Apart(s.txs[a], s.txs[b]);
  }

  lemma CommitKeepsInv(s: State, step: Step, eh: EventHasher, lockKey: LockKey)
    requires Inv(s, eh, lockKey) && Enabled(s, step, lockKey) && step.Commit?
    ensures Inv(Next(s, step, eh, lockKey), eh, lockKey)
  {
    hide TxInv, Apart, Chain;
    CommittedTableSound(s, step, eh, lockKey);
    var s' := Next(s, step, eh, lockKey);
    var u := s.txs[step.tx];
    assert TxInv(s, u, eh, lockKey);
    forall a | a in s'.txs ensures TxInv(s', s'.txs[a], eh, lockKey) {
      if a == step.tx {
        CommitterTxInv(s, step, eh, lockKey);
      } else {
        assert Apart(u, s.txs[a]);
        OtherAfterCommit(s, s', u, s.txs[a], eh, lockKey);
      }
    }
    forall a, b | a in s'.txs && b in s'.txs && a != b ensures Apart(s'.txs[a], s'.txs[b]) {
      CommitKeepsApart(s, step, eh, lockKey, a, b);
    }
  }

  lemma ReleaseKeepsInv(s: State, step: Step, eh: EventHasher, lockKey: LockKey)
    requires Inv(s, eh, lockKey) && Enabled(s, step, lockKey) && step.Release?
    ensures Inv(Next(s, step, eh, lockKey), eh, lockKey)
  {
    var s' := Next(s, step, eh, lockKey);
    forall a | a in s'.txs ensures TxInv(s', s'.txs[a], eh, lockKey) {
      assert TxInv(s, s.txs[a], eh, lockKey);
      assert Visible(s', s'.txs[a]) == Visible(s, s.txs[a]);
    }
    forall a, b | a in s'.txs && b in s'.txs && a != b ensures Apart(s'.txs[a], s'.txs[b]) {
      assert Apart(s.txs[a], s.txs[b]);
    }
  }

  lemma {:induction false} StepKeepsInv(s: State, step: Step, eh: EventHasher, lockKey: LockKey)
    requires Inv(s, eh, lockKey) && Enabled(s, step, lockKey)
    ensures Inv(Next(s, step, eh, lockKey), eh, lockKey)
  {
    match step {
      case Insert(_, _, _, _) => InsertKeepsInv(s, step, eh, lockKey);
      case Commit(_) => CommitKeepsInv(s, step, eh, lockKey);
      case Release(_) => ReleaseKeepsInv(s, step, eh, lockKey);
      case _ => SmallStepKeepsInv(s, step, eh, lockKey);
    }
  }

  lemma {:induction false} EmptyChain(n: nat, t: JsString)
    ensures Chain(map[], n, t) == []
  {
    if n > 0 {
      EmptyChain(n - 1, t);
      ChainStep(map[], n - 1, t);
    }
  }

  lemma {:induction false} RunKeepsInv(states: seq<State>, steps: seq<Step>, eh: EventHasher, lockKey: LockKey, i: nat)
    requires IsRun(states, steps, eh, lockKey) && i < |states|
    ensures Inv(states[i], eh, lockKey)
  {
    if i == 0 {
      forall t { EmptyChain(1, t); }
    } else {
      RunKeepsInv(states, steps, eh, lockKey, i - 1);
      StepKeepsInv(states[i - 1], steps[i - 1], eh, lockKey);
    }
  }

  // ---------------------------------------------------------------- main results

  lemma {:induction false} LinkedTenantsVerify(eh: EventHasher, rows: seq<Row>)
    requires forall t :: Linked(eh, TenantRows(rows, t))
    ensures Problems(eh, rows) == []
  {
    if rows != [] {
      var front, last := rows[..|rows| - 1], rows[|rows| - 1];
      assert rows == front + [last];
      forall t ensures Linked(eh, TenantRows(front, t)) {
        TenantRowsSnoc(front, last, t);
        assert Linked(eh, TenantRows(rows, t));
        assert (TenantRows(front, t) + [last])[..|TenantRows(front, t)|] == TenantRows(front, t);
      }
      LinkedTenantsVerify(eh, front);
      var t := last.event.tenantId;
      TenantRowsSnoc(front, last, t);
      assert Linked(eh, TenantRows(rows, t));
      assert (TenantRows(front, t) + [last])[..|TenantRows(front, t)|] == TenantRows(front, t);
      ProblemsSnoc(eh, front, last);
    }
  }

  /** In every reachable state of any interleaving, verifyChain finds no problem in the committed
      rows, neither tenant by tenant nor over all tenants. */
  lemma EveryReachableLogVerifies(states: seq<State>, steps: seq<Step>, eh: EventHasher, lockKey: LockKey, i: nat)
    requires IsRun(states, steps, eh, lockKey) && i < |states|
    ensures var rows := InSequence(states[i].committed, states[i].nextSequence);
            && (forall t :: Problems(eh, TenantRows(rows, t)) == [])
            && Problems(eh, ByTenant(rows)) == []
  {
    RunKeepsInv(states, steps, eh, lockKey, i);
    var s := states[i];
    var rows := InSequence(s.committed, s.nextSequence);
    forall t ensures Problems(eh, TenantRows(rows, t)) == [] {
      assert Linked(eh, Chain(s.committed, s.nextSequence, t));
      TenantRowsOf(rows, t);
      VerifiesIffLinked(eh, TenantRows(rows, t), t);
    }
    forall t ensures Linked(eh, TenantRows(ByTenant(rows), t)) {
      assert Linked(eh, Chain(s.committed, s.nextSequence, t));
      ByTenantKeepsTenantRows(rows, t);
    }
    LinkedTenantsVerify(eh, ByTenant(rows));
  }

  lemma CommitAppendsOnly(s: State, id: TxId, eh: EventHasher, lockKey: LockKey, t: JsString)
    requires Inv(s, eh, lockKey) && id in s.txs
    ensures Chain(s.committed, s.nextSequence, t) <= Chain(Visible(s, s.txs[id]), s.nextSequence, t)
  {
    assert TxInv(s, s.txs[id], eh, lockKey);
    ChainExtends(s.committed, s.txs[id].rows, s.nextSequence, t);
  }

  lemma InsertAppendsNothing(s: State, eh: EventHasher, lockKey: LockKey, t: JsString)
    requires Inv(s, eh, lockKey)
    ensures Chain(s.committed, s.nextSequence + 1, t) == Chain(s.committed, s.nextSequence, t)
  {
    hide Chain, AllLinked, TxInv, Apart;
    ChainStep(s.committed, s.nextSequence, t);
  }

  lemma StepAppendsOnly(s: State, step: Step, eh: EventHasher, lockKey: LockKey, t: JsString)
    requires Inv(s, eh, lockKey) && Enabled(s, step, lockKey)
    ensures var s' := Next(s, step, eh, lockKey);
            Chain(s.committed, s.nextSequence, t) <= Chain(s'.committed, s'.nextSequence, t)
  {
    hide Inv, Chain;
    match step {
      case Insert(_, _, _, _) => InsertAppendsNothing(s, eh, lockKey, t);
      case Commit(tx) => CommitAppendsOnly(s, tx, eh, lockKey, t);
      case _ =>
    }
  }

  /** A tenant's committed chain only ever grows at its end, so what was verified once stays as it was. */
  lemma {:induction false} CommittedChainOnlyGrows(states: seq<State>, steps: seq<Step>, eh: EventHasher,
                                                   lockKey: LockKey, i: nat, j: nat, t: JsString)
    requires IsRun(states, steps, eh, lockKey) && i <= j < |states|
    ensures Chain(states[i].committed, states[i].nextSequence, t)
         <= Chain(states[j].committed, states[j].nextSequence, t)
  {
    hide Next, Enabled, Inv, Chain;
    if i < j {
      CommittedChainOnlyGrows(states, steps, eh, lockKey, i, j - 1, t);
      RunKeepsInv(states, steps, eh, lockKey, j - 1);
      StepAppendsOnly(states[j - 1], steps[j - 1], eh, lockKey, t);
    }
  }

  // ---------------------------------------------------------------- where the rows come from

  // committed, or inserted by a transaction that has not ended
  ghost predicate HasRow(s: State, k: nat, row: Row) {
    || (k in s.committed && s.committed[k] == row)
    || exists tx :: tx in s.txs && k in s.txs[tx].rows && s.txs[tx].rows[k] == row
  }

  // the row carries the input of the insert, column by column, and the link the transaction has read
  ghost predicate Inserts(s: State, step: Step, eh: EventHasher, k: nat, row: Row) {
    && step.Insert? && k == s.nextSequence && step.tx in s.txs && s.txs[step.tx].pending.HasRead?
    && Carries(row.event, step.input, step.eventId, step.occurredAt)
    && row.event.previousEventHash == s.txs[step.tx].pending.previous && row.eventHash == eh(row.event)
  }

  lemma RowsComeFromInserts(s: State, step: Step, eh: EventHasher, lockKey: LockKey, k: nat, row: Row)
    requires Enabled(s, step, lockKey) && HasRow(Next(s, step, eh, lockKey), k, row)
    ensures HasRow(s, k, row) || Inserts(s, step, eh, k, row)
  {
  }

  lemma NoRowAtFirst(k: nat, row: Row)
    ensures !HasRow(INITIAL, k, row)
  {
  }

  lemma {:induction false} RowWasInserted(states: seq<State>, steps: seq<Step>, eh: EventHasher, lockKey: LockKey,
                                          i: nat, k: nat, row: Row) returns (j: nat)
    requires IsRun(states, steps, eh, lockKey) && i < |states| && HasRow(states[i], k, row)
    ensures j < i && Inserts(states[j], steps[j], eh, k, row)
    decreases i
  {
    hide Next, Enabled, HasRow, Inserts;
    NoRowAtFirst(k, row);
    j := i - 1;
    RowsComeFromInserts(states[j], steps[j], eh, lockKey, k, row);
    if !Inserts(states[j], steps[j], eh, k, row) {
      j := RowWasInserted(states, steps, eh, lockKey, j, k, row);
    }
  }

  /** Every committed row carries, column by column, the input of the insert that wrote it, and links to the last row
      of its tenant that the inserting transaction saw. */
  lemma CommittedRowsCarryTheirInput(states: seq<State>, steps: seq<Step>, eh: EventHasher, lockKey: LockKey, i: nat,
                                     k: nat) returns (j: nat)
    requires IsRun(states, steps, eh, lockKey) && i < |states| && k in states[i].committed
    ensures j < i && steps[j].Insert? && states[j].nextSequence == k && steps[j].tx in states[j].txs
    ensures var row := states[i].committed[k];
            && Carries(row.event, steps[j].input, steps[j].eventId, steps[j].occurredAt)
            && row.eventHash == eh(row.event)
            && IsLastHash(InSequence(Visible(states[j], states[j].txs[steps[j].tx]), k), row.event.tenantId,
                          row.event.previousEventHash)
  {
    j := RowWasInserted(states, steps, eh, lockKey, i, k, states[i].committed[k]);
    RunKeepsInv(states, steps, eh, lockKey, j);
    assert TxInv(states[j], states[j].txs[steps[j].tx], eh, lockKey);
    LastOfTenant(InSequence(Visible(states[j], states[j].txs[steps[j].tx]), k), states[i].committed[k].event.tenantId);
    assert Enabled(states[j], steps[j], lockKey);
  }

  // ---------------------------------------------------------------- one append with nothing in between

  lemma InSequenceNext(table: Table, n: nat, row: Row)
    ensures InSequence(table[n := row], n + 1) == InSequence(table, n) + [row]
  {
    InSequenceFrame(table, n, row, n);
  }

  lemma {:induction false} InSequenceFrame(table: Table, n: nat, row: Row, m: nat)
    requires m <= n
    ensures InSequence(table[n := row], m) == InSequence(table, m)
  {
    if m > 0 {
      InSequenceFrame(table, n, row, m - 1);
    }
  }

  /** A transaction that finds the tenant's lock free can lock, read and insert, and if nothing comes in between, it
      then sees what AppendAuditEvent leaves of the table it saw: so the method is the run of a single append. */
  lemma AppendInOneGo(s: State, tx: TxId, input: AppendInput, eventId: JsString, occurredAt: JsString, eh: EventHasher,
                      lockKey: LockKey) returns (locked: State, read: State, inserted: State)
    requires tx in s.txs && s.txs[tx].active && s.txs[tx].pending == NoAppend
    requires forall other | other in s.txs && other != tx :: lockKey(input.tenantId) !in s.txs[other].locks
    ensures Enabled(s, Lock(tx, input.tenantId), lockKey) && locked == Next(s, Lock(tx, input.tenantId), eh, lockKey)
    ensures Enabled(locked, Read(tx), lockKey) && read == Next(locked, Read(tx), eh, lockKey)
    ensures Enabled(read, Insert(tx, input, eventId, occurredAt), lockKey)
            && inserted == Next(read, Insert(tx, input, eventId, occurredAt), eh, lockKey)
    ensures Enabled(inserted, Commit(tx), lockKey)
    ensures var before := InSequence(Visible(s, s.txs[tx]), s.nextSequence);
            InSequence(Visible(inserted, inserted.txs[tx]), inserted.nextSequence)
            == before + [NewRow(eh, LastHash(TenantRows(before, input.tenantId)), input, eventId, occurredAt)]
  {
    hide InSequence, TenantRows, LastHash;
    var n := s.nextSequence;
    locked := Next(s, Lock(tx, input.tenantId), eh, lockKey);
    assert Visible(locked, locked.txs[tx]) == Visible(s, s.txs[tx]);
    read := Next(locked, Read(tx), eh, lockKey);
    assert Visible(read, read.txs[tx]) == Visible(s, s.txs[tx]);
    inserted := Next(read, Insert(tx, input, eventId, occurredAt), eh, lockKey);
    var row := inserted.txs[tx].rows[n];
    assert Visible(inserted, inserted.txs[tx]) == Visible(s, s.txs[tx])[n := row];
    InSequenceNext(Visible(s, s.txs[tx]), n, row);
  }
}
