/** src/services/outbox-worker/worker.ts and enqueue.ts: one batch of the transactional outbox. */
module Outbox {
  import opened Tables

  type Id = nat
  type EventType = nat
  type Handlers = EventType -> bool // whether a handler is registered

  datatype Status = Pending | Processing | Done | Dead

  datatype Row = Row(eventType: EventType, status: Status, attempts: nat, nextRetryAt: Option<int>, createdAt: int)

  type Table = map<Id, Row>

  const MAX_ATTEMPTS := 8
  const BASE_BACKOFF_MS := 1000
  const MAX_BACKOFF_MS := 5 * 60 * 1000

  function Power2(n: nat): nat {
    if n == 0 then 1 else 2 * Power2(n - 1)
  }

  function ComputeBackoffMs(attempts: nat): nat {
    var ms := BASE_BACKOFF_MS * Power2(attempts);
    if ms <= MAX_BACKOFF_MS then ms else MAX_BACKOFF_MS
  }

  // the waiting scheduled by the first n failures
  function TotalBackoff(n: nat): nat {
    if n == 0 then 0 else TotalBackoff(n - 1) + ComputeBackoffMs(n)
  }

  /** The cap is never reached before the attempts run out, and all the waits of one row together
      are at most 254 seconds. */
  lemma {:induction false} BackoffBounds(n: nat)
    requires n < MAX_ATTEMPTS
    ensures ComputeBackoffMs(n) == BASE_BACKOFF_MS * Power2(n) < MAX_BACKOFF_MS
    ensures TotalBackoff(n) <= 254_000 && TotalBackoff(MAX_ATTEMPTS - 1) == 254_000
  {
    assert Power2(1) == 2 && Power2(2) == 4 && Power2(3) == 8 && Power2(4) == 16;
    assert Power2(5) == 32 && Power2(6) == 64 && Power2(7) == 128;
    assert TotalBackoff(3) == 14_000;
    assert TotalBackoff(5) == 62_000;
    assert TotalBackoff(6) == 126_000;
    assert TotalBackoff(7) == 254_000;
  }

  lemma {:induction false} Power2Grows(n: nat)
    requires n >= 9
    ensures Power2(n) >= 512
  {
    if n > 9 {
      Power2Grows(n - 1);
    } else {
      assert Power2(3) == 8 && Power2(6) == 64 && Power2(9) == 512;
    }
  }

  /** The backoff doubles from one second up to 256, and is five minutes from the ninth attempt on. */
  lemma BackoffIs(n: nat)
    ensures ComputeBackoffMs(n) == if n <= 8 then 1000 * Power2(n) else 300_000
  {
    if n <= 8 {
      assert Power2(2) == 4 && Power2(4) == 16 && Power2(6) == 64 && Power2(8) == 256;
      assert Power2(1) == 2 && Power2(3) == 8 && Power2(5) == 32 && Power2(7) == 128;
    } else {
      Power2Grows(n);
    }
  }

  predicate IsDue(row: Row, now: int) {
    row.status == Pending && (row.nextRetryAt.None? || row.nextRetryAt.value <= now)
  }

  predicate IsFinal(row: Row) {
    row.status == Done || row.status == Dead
  }

  // ---------------------------------------------------------------- what a processed claim writes

  datatype Outcome = NoHandler | Succeeded | Threw

  function Settle(row: Row, outcome: Outcome, now: int): Row {
    match outcome
    case NoHandler => row.(status := Dead)
    case Succeeded => row.(status := Done)
    case Threw =>
      var attempts := row.attempts + 1;
      if attempts >= MAX_ATTEMPTS then row.(status := Dead, attempts := attempts, nextRetryAt := None)
      else row.(status := Pending, attempts := attempts, nextRetryAt := Some(now + ComputeBackoffMs(attempts)))
  }

  /** What a claimed row must become, column by column: dead without a handler, done on success, and after a failure
      pending until 1000 * 2^attempts ms from then, or dead at the eighth. */
  ghost predicate SettledAs(row: Row, after: Row, handled: bool, throws: bool, clock: int) {
    && after.eventType == row.eventType && after.createdAt == row.createdAt
    && (!handled ==> after.status == Dead && after.attempts == row.attempts && after.nextRetryAt == row.nextRetryAt)
    && (handled && !throws ==>
          after.status == Done && after.attempts == row.attempts && after.nextRetryAt == row.nextRetryAt)
    && (handled && throws && row.attempts < 7 ==>
          && after.status == Pending && after.attempts == row.attempts + 1
          && after.nextRetryAt == Some(clock + 1000 * Power2(row.attempts + 1)))
    && (handled && throws && row.attempts >= 7 ==>
          after.status == Dead && after.attempts == row.attempts + 1 && after.nextRetryAt == None)
  }

  lemma SettlesAs(row: Row, handlers: Handlers, throws: bool, clock: int)
    ensures SettledAs(row, Settle(row, OutcomeOf(row, handlers, throws), clock), handlers(row.eventType), throws, clock)
  {
    if row.attempts < 7 {
      BackoffBounds(row.attempts + 1);
    }
  }

  // ---------------------------------------------------------------- one batch

  // what ORDER BY created_at LIMIT n picks among the due rows
  ghost predicate Picks(rows: Table, now: int, limit: nat, claimed: seq<Id>) {
    && |claimed| <= limit
    && (forall i | 0 <= i < |claimed| :: claimed[i] in rows && IsDue(rows[claimed[i]], now))
    && (forall i, j | 0 <= i < j < |claimed| ::
          claimed[i] != claimed[j] && rows[claimed[i]].createdAt <= rows[claimed[j]].createdAt)
    && (forall id | id in rows && IsDue(rows[id], now) && id !in claimed ::
          |claimed| == limit && forall i | 0 <= i < |claimed| :: rows[claimed[i]].createdAt <= rows[id].createdAt)
  }

  predicate IsOldest(rows: Table, ids: set<Id>, next: Id) {
    next in ids && ids <= rows.Keys && forall id | id in ids :: rows[next].createdAt <= rows[id].createdAt
  }

  lemma {:induction false} OldestExists(rows: Table, ids: set<Id>)
    requires ids != {} && ids <= rows.Keys
    ensures exists next :: IsOldest(rows, ids, next)
  {
    var x :| x in ids;
    var others := ids - {x};
    if others == {} {
      assert ids == {x};
      assert IsOldest(rows, ids, x);
    } else {
      OldestExists(rows, others);
      var y :| IsOldest(rows, others, y);
      assert IsOldest(rows, ids, if rows[x].createdAt <= rows[y].createdAt then x else y);
    }
  }

  // the query has an answer
  lemma {:induction false} PicksExist(rows: Table, now: int, limit: nat) returns (claimed: seq<Id>)
    ensures Picks(rows, now, limit, claimed)
  {
    claimed := [];
    if limit > 0 {
      claimed := PicksExist(rows, now, limit - 1);
      var left := set id | id in rows && IsDue(rows[id], now) && id !in claimed;
      if left != {} {
        OldestExists(rows, left);
        var next :| IsOldest(rows, left, next);
        assert next in left;
        claimed := claimed + [next];
      }
      assert forall id | id in rows && IsDue(rows[id], now) && id !in claimed :: id in left;
    }
  }

  function OutcomeOf(row: Row, handlers: Handlers, throws: bool): Outcome {
    if !handlers(row.eventType) then NoHandler else if throws then Threw else Succeeded
  }

  function CountSucceeded(claimed: seq<Id>, rows: Table, handlers: Handlers, throws: Id -> bool): nat
    requires forall i | 0 <= i < |claimed| :: claimed[i] in rows
  {
    if claimed == [] then 0
    else
      var last := claimed[|claimed| - 1];
      CountSucceeded(claimed[..|claimed| - 1], rows, handlers, throws)
      + (if OutcomeOf(rows[last], handlers, throws(last)) == Succeeded then 1 else 0)
  }

  // `rows` after the first n claims have been settled, `before` being the table they were selected from
  ghost predicate SettledUpTo(before: Table, rows: Table, claimed: seq<Id>, n: nat, handlers: Handlers,
                              throws: Id -> bool, clock: Id -> int)
    requires forall i | 0 <= i < |claimed| :: claimed[i] in before
  {
    && rows.Keys == before.Keys
    && (forall id | id in before && id !in claimed :: rows[id] == before[id])
    && (forall k | 0 <= k < |claimed| ::
          var id := claimed[k];
          rows[id] == if k < n then Settle(before[id], OutcomeOf(before[id], handlers, throws(id)), clock(id))
                      else before[id].(status := Processing))
  }

  lemma SettleNext(before: Table, rows: Table, claimed: seq<Id>, i: nat, handlers: Handlers, throws: Id -> bool,
                   clock: Id -> int)
    requires forall k | 0 <= k < |claimed| :: claimed[k] in before
    requires forall k, l | 0 <= k < l < |claimed| :: claimed[k] != claimed[l]
    requires i < |claimed| && SettledUpTo(before, rows, claimed, i, handlers, throws, clock)
    ensures var id := claimed[i];
            && rows[id] == before[id].(status := Processing)
            && SettledUpTo(before, rows[id := Settle(rows[id], OutcomeOf(rows[id], handlers, throws(id)), clock(id))],
                           claimed, i + 1, handlers, throws, clock)
  {
  }

  lemma SettledRows(before: Table, rows: Table, claimed: seq<Id>, handlers: Handlers, throws: Id -> bool,
                    clock: Id -> int)
    requires forall i | 0 <= i < |claimed| :: claimed[i] in before
    requires SettledUpTo(before, rows, claimed, |claimed|, handlers, throws, clock)
    ensures forall id | id in claimed ::
              SettledAs(before[id], rows[id], handlers(before[id].eventType), throws(id), clock(id))
  {
    forall k | 0 <= k < |claimed|
      ensures SettledAs(before[claimed[k]], rows[claimed[k]], handlers(before[claimed[k]].eventType),
                        throws(claimed[k]), clock(claimed[k]))
    {
      SettlesAs(before[claimed[k]], handlers, throws(claimed[k]), clock(claimed[k]));
    }
  }

  // the claimed rows whose handler succeeds
  ghost function Successes(claimed: seq<Id>, rows: Table, handlers: Handlers, throws: Id -> bool): set<Id>
    requires forall i | 0 <= i < |claimed| :: claimed[i] in rows
  {
    set id | id in claimed && handlers(rows[id].eventType) && !throws(id)
  }

  lemma SuccessesNext(front: seq<Id>, last: Id, rows: Table, handlers: Handlers, throws: Id -> bool)
    requires forall i | 0 <= i < |front| :: front[i] in rows
    requires last in rows && last !in front
    ensures |Successes(front + [last], rows, handlers, throws)|
            == |Successes(front, rows, handlers, throws)|
               + if handlers(rows[last].eventType) && !throws(last) then 1 else 0
  {
    var own := if handlers(rows[last].eventType) && !throws(last) then {last} else {};
    assert Successes(front + [last], rows, handlers, throws) == Successes(front, rows, handlers, throws) + own;
  }

  lemma {:induction false} CountIsSuccesses(claimed: seq<Id>, rows: Table, handlers: Handlers, throws: Id -> bool)
    requires forall i | 0 <= i < |claimed| :: claimed[i] in rows
    requires forall i, j | 0 <= i < j < |claimed| :: claimed[i] != claimed[j]
    ensures CountSucceeded(claimed, rows, handlers, throws) == |Successes(claimed, rows, handlers, throws)|
  {
    if claimed == [] {
      assert Successes([], rows, handlers, throws) == {};
    } else {
      var front, last := claimed[..|claimed| - 1], claimed[|claimed| - 1];
      CountIsSuccesses(front, rows, handlers, throws);
      SuccessesNext(front, last, rows, handlers, throws);
      assert claimed == front + [last];
    }
  }

  class TransactionalOutbox {
    var rows: Table

    constructor ()
      ensures rows == map[]
    {
      rows := map[];
    }

    // enqueueOutboxEvent: nothing happens on a duplicate idempotency key, which is the row's id here
    method Enqueue(key: Id, eventType: EventType, now: int)
      modifies this
      ensures rows == if key in old(rows) then old(rows) else old(rows)[key := Row(eventType, Pending, 0, None, now)]
    {
      if key !in rows {
        rows := rows[key := Row(eventType, Pending, 0, None, now)];
      }
    }

    method SelectDue(now: int, limit: nat) returns (claimed: seq<Id>)
      ensures Picks(rows, now, limit, claimed)
      ensures forall id | id in claimed ::
                id in rows && rows[id].status == Pending
                  && (rows[id].nextRetryAt.Some? ==> rows[id].nextRetryAt.value <= now)
      ensures forall id | && id in rows && id !in claimed && rows[id].status == Pending
                          && (rows[id].nextRetryAt.None? || rows[id].nextRetryAt.value <= now) :: |claimed| == limit
    {
      claimed := [];
      var left := set id | id in rows && IsDue(rows[id], now);
      while |claimed| < limit && left != {}
        invariant |claimed| <= limit
        invariant forall id :: id in left <==> id in rows && IsDue(rows[id], now) && id !in claimed
        invariant forall i | 0 <= i < |claimed| :: claimed[i] in rows && IsDue(rows[claimed[i]], now)
        invariant forall i, j | 0 <= i < j < |claimed| ::
                    claimed[i] != claimed[j] && rows[claimed[i]].createdAt <= rows[claimed[j]].createdAt
        invariant forall id, i | id in left && 0 <= i < |claimed| :: rows[claimed[i]].createdAt <= rows[id].createdAt
      {
        OldestExists(rows, left);
        var next :| IsOldest(rows, left, next);
        claimed := claimed + [next];
        left := left - {next};
      }
    }

    /** processOutboxBatch: claim, then settle the claimed rows one by one. */
    method ProcessOutboxBatch(handlers: Handlers, throws: Id -> bool, now: int, clock: Id -> int, batchSize: nat)
      returns (processed: nat, failed: nat, claimed: seq<Id>)
      modifies this
      ensures Picks(old(rows), now, batchSize, claimed)
      ensures SettledUpTo(old(rows), rows, claimed, |claimed|, handlers, throws, clock)
      ensures rows.Keys == old(rows).Keys
      ensures forall id | id in old(rows) && id !in claimed :: rows[id] == old(rows)[id]
      ensures forall id | id in claimed ::
                && old(rows)[id].status == Pending
                && SettledAs(old(rows)[id], rows[id], handlers(old(rows)[id].eventType), throws(id), clock(id))
      ensures processed == |Successes(claimed, old(rows), handlers, throws)|
      ensures processed + failed == |claimed|
    {
      claimed := SelectDue(now, batchSize);
      ghost var before := rows;
      rows := map id | id in rows :: if id in claimed then rows[id].(status := Processing) else rows[id];
      processed, failed := SettleClaimed(before, claimed, handlers, throws, clock);
      SettledRows(before, rows, claimed, handlers, throws, clock);
      CountIsSuccesses(claimed, before, handlers, throws);
    }

    // one claimed row: run its handler and write what became of it
    method SettleOne(id: Id, row: Row, handlers: Handlers, throws: bool, now: int) returns (done: bool)
      modifies this
      ensures rows == old(rows)[id := Settle(row, OutcomeOf(row, handlers, throws), now)]
      ensures SettledAs(row, rows[id], handlers(row.eventType), throws, now)
      ensures done <==> handlers(row.eventType) && !throws
    {
      SettlesAs(row, handlers, throws, now);
      if !handlers(row.eventType) {
        rows := rows[id := row.(status := Dead)];
        return false;
      }
      if !throws {
        rows := rows[id := row.(status := Done)];
        return true;
      }
      var attempts := row.attempts + 1;
      var isDead := attempts >= MAX_ATTEMPTS;
      rows := rows[id := row.(status := if isDead then Dead else Pending,
                              attempts := attempts,
                              nextRetryAt := if isDead then None else Some(now + ComputeBackoffMs(attempts)))];
      return false;
    }

    method SettleClaimed(ghost before: Table, claimed: seq<Id>, handlers: Handlers, throws: Id -> bool,
                         clock: Id -> int)
      returns (processed: nat, failed: nat)
      requires forall i | 0 <= i < |claimed| :: claimed[i] in before && before[claimed[i]].status == Pending
      requires forall i, j | 0 <= i < j < |claimed| :: claimed[i] != claimed[j]
      requires SettledUpTo(before, rows, claimed, 0, handlers, throws, clock)
      modifies this
      ensures SettledUpTo(before, rows, claimed, |claimed|, handlers, throws, clock)
      ensures processed == CountSucceeded(claimed, before, handlers, throws)
      ensures processed + failed == |claimed|
    {
      processed, failed := 0, 0;
      for i := 0 to |claimed|
        invariant SettledUpTo(before, rows, claimed, i, handlers, throws, clock)
        invariant processed == CountSucceeded(claimed[..i], before, handlers, throws)
        invariant processed + failed == i
      {
        var id := claimed[i];
        assert claimed[..i + 1][..i] == claimed[..i];
        SettleNext(before, rows, claimed, i, handlers, throws, clock);
        var done := SettleOne(id, rows[id], handlers, throws(id), clock(id));
        if done {
          processed := processed + 1;
        } else {
          failed := failed + 1;
        }
      }
      assert claimed[..|claimed|] == claimed;
    }
  }
}
