/** Outbox runs without crashes and new rows: what they use up, that they can always go on, and where they end. */
module OutboxProgress {
  import opened Tables
  import opened Outbox
  import opened OutboxRuns

  // ---------------------------------------------------------------- sums over the rows

  ghost function Total(m: map<Id, nat>): nat
    decreases |m|
  {
    if m == map[] then 0
    else
      var id :| id in m;
      assert |m - {id}| < |m| by { RemoveShrinks(m, id); }
      m[id] + Total(m - {id})
  }

  lemma RemoveShrinks(m: map<Id, nat>, id: Id)
    requires id in m
    ensures |m - {id}| < |m|
  {
    assert (m - {id}).Keys == m.Keys - {id};
    assert |m.Keys - {id}| == |m.Keys| - 1;
    assert |(m - {id}).Keys| == |m - {id}| && |m.Keys| == |m|;
  }

  // the sum does not depend on the order in which rows are taken
  lemma {:induction false} TotalOf(m: map<Id, nat>, id: Id)
    requires id in m
    ensures Total(m) == m[id] + Total(m - {id})
    decreases |m|
  {
    var first :| first in m && Total(m) == m[first] + Total(m - {first});
    if first != id {
      RemoveShrinks(m, first);
      RemoveShrinks(m, id);
      TotalOf(m - {first}, id);
      TotalOf(m - {id}, first);
      assert m - {first} - {id} == m - {id} - {first};
    }
  }

  lemma {:induction false} TotalAtMost(a: map<Id, nat>, b: map<Id, nat>)
    requires a.Keys == b.Keys && forall id | id in a :: a[id] <= b[id]
    ensures Total(a) <= Total(b)
    decreases |a|
  {
    if a != map[] {
      var id :| id in a;
      RemoveShrinks(a, id);
      TotalOf(a, id);
      TotalOf(b, id);
      TotalAtMost(a - {id}, b - {id});
    } else {
      assert b == map[];
    }
  }

  lemma TotalLess(a: map<Id, nat>, b: map<Id, nat>, id: Id)
    requires a.Keys == b.Keys && forall other | other in a :: a[other] <= b[other]
    requires id in a && a[id] < b[id]
    ensures Total(a) < Total(b)
  {
    TotalOf(a, id);
    TotalOf(b, id);
    TotalAtMost(a - {id}, b - {id});
  }

  // ---------------------------------------------------------------- the attempts left

  // the attempts a row still has
  function Weight(row: Row): nat {
    if IsFinal(row) || row.attempts >= MAX_ATTEMPTS then 0 else MAX_ATTEMPTS - row.attempts
  }

  ghost function TotalWeight(rows: Table): nat {
    Total(map id | id in rows :: Weight(rows[id]))
  }

  // no claim of a row has more attempts left than the row, and a settled one has fewer
  lemma WeightStep(s: State, step: Step, handlers: Handlers, id: Id)
    requires Inv(s) && Enabled(s, step, handlers) && !step.EnqueueRow? && id in s.rows
    ensures var s' := Next(s, step, handlers);
            && id in s'.rows
            && Weight(s'.rows[id]) <= Weight(s.rows[id])
            && (step.SettleHead? && id == s.workers[step.w].queue[0].id ==> Weight(s'.rows[id]) < Weight(s.rows[id]))
  {
    assert RowSound(s.rows[id], s.history[id]);
    if step.SettleHead? || step.CommitClaim? {
      assert HoldsRows(s, s.workers[step.w]);
    }
  }

  /** Every settled claim uses up weight, and apart from new rows no step adds any. */
  lemma {:induction false} SettlingUsesUpWeight(s: State, step: Step, handlers: Handlers)
    requires Inv(s) && Enabled(s, step, handlers) && !step.EnqueueRow?
    ensures TotalWeight(Next(s, step, handlers).rows) + (if step.SettleHead? then 1 else 0) <= TotalWeight(s.rows)
  {
    var s' := Next(s, step, handlers);
    var before := map id | id in s.rows :: Weight(s.rows[id]);
    var after := map id | id in s'.rows :: Weight(s'.rows[id]);
    SameRows(s, step, handlers);
    forall id | id in s.rows ensures after[id] <= before[id] {
      WeightStep(s, step, handlers, id);
    }
    if step.SettleHead? {
      var head := s.workers[step.w].queue[0].id;
      assert HoldsRows(s, s.workers[step.w]);
      WeightStep(s, step, handlers, head);
      hide *;
      TotalLess(after, before, head);
    } else {
      hide *;
      TotalAtMost(after, before);
    }
  }

  lemma SameRows(s: State, step: Step, handlers: Handlers)
    requires Enabled(s, step, handlers) && !step.EnqueueRow?
    ensures Next(s, step, handlers).rows.Keys == s.rows.Keys
  {
  }

  function CountSettles(steps: seq<Step>): nat {
    if steps == [] then 0
    else CountSettles(steps[..|steps| - 1]) + (if steps[|steps| - 1].SettleHead? then 1 else 0)
  }

  /** From any point of a run at which no more rows arrive, no more claims are settled than the attempts its rows
      have left. */
  lemma {:induction false} SettlesAreBounded(states: seq<State>, steps: seq<Step>, handlers: Handlers, i: nat, j: nat)
    requires IsRun(states, steps, handlers) && i <= j < |states|
    requires forall k | i <= k < j :: !steps[k].EnqueueRow?
    ensures CountSettles(steps[i..j]) + TotalWeight(states[j].rows) <= TotalWeight(states[i].rows)
    decreases j - i
  {
    hide Next, Enabled, Inv;
    if i < j {
      SettlesAreBounded(states, steps, handlers, i, j - 1);
      RunKeepsInv(states, steps, handlers, j - 1);
      SettlingUsesUpWeight(states[j - 1], steps[j - 1], handlers);
      assert steps[i..j][..j - 1 - i] == steps[i..j - 1];
    }
  }

  // ---------------------------------------------------------------- the steps left

  // the workers go on by themselves: no new rows and no crashes
  predicate GoesOn(step: Step) {
    !step.EnqueueRow? && !step.Crash?
  }

  // a step that takes some row further
  predicate Progresses(s: State, step: Step) {
    match step
    case SelectForUpdate(_, _, ids) => ids != []
    case CommitClaim(w) => w in s.workers && s.workers[w].Locking? && s.workers[w].ids != []
    case RunHandler(_, _) => true
    case DoneWriteFails(_) => true
    case SettleHead(_) => true
    case _ => false
  }

  predicate IsHead(s: State, w: WorkerId, id: Id) {
    Busy(s, w) && s.workers[w].queue[0].id == id
  }

  // how far the present attempt at a row has come: locked, marked, handled and, if the handler is done, not settled
  ghost function Reached(s: State, id: Id): nat
    requires id in s.rows
  {
    if s.rows[id].status == Processing then
      if exists w :: w in s.workers && IsHead(s, w, id) && s.workers[w].stage == Ran(false) then 4
      else if exists w :: w in s.workers && IsHead(s, w, id) && s.workers[w].stage == Ran(true) then 3
      else 2
    else if IsLocked(s, id) then 1
    else 0
  }

  const STEPS_OF_AN_ATTEMPT := 5

  // the steps that can still be taken on a row
  ghost function Left(s: State, id: Id): nat
    requires id in s.rows
  {
    var steps := STEPS_OF_AN_ATTEMPT * Weight(s.rows[id]);
    if steps < Reached(s, id) then 0 else steps - Reached(s, id)
  }

  ghost function Work(s: State): nat {
    Total(map id | id in s.rows :: Left(s, id))
  }

  // a row that a worker has marked is at the stage of that worker
  lemma ReachedAsHead(s: State, w: WorkerId, id: Id)
    requires Inv(s) && id in s.rows && IsHead(s, w, id)
    ensures s.rows[id].status == Processing
    ensures Reached(s, id) == match s.workers[w].stage case Ready => 2 case Ran(ok) => if ok then 3 else 4
  {
    assert HoldsRows(s, s.workers[w]);
    assert Holds(s.workers[w], id);
    forall v | v in s.workers && IsHead(s, v, id) ensures v == w {
      assert Holds(s.workers[v], id);
    }
  }

  lemma SelectReaches(s: State, step: Step, handlers: Handlers, id: Id)
    requires Inv(s) && Enabled(s, step, handlers) && step.SelectForUpdate? && id in s.rows
    ensures Reached(Next(s, step, handlers), id) >= Reached(s, id)
    ensures id in step.ids ==> Reached(Next(s, step, handlers), id) > Reached(s, id)
  {
    var s' := Next(s, step, handlers);
    forall v | v in s.workers ensures v in s'.workers && s'.workers[v] == s.workers[v] {
    }
    if IsLocked(s, id) {
      assert IsLocked(s', id);
    }
    if id in step.ids {
      assert s'.workers[step.w].Locking? && id in s'.workers[step.w].ids;
      assert IsLocked(s', id);
    }
  }

  lemma CommitReaches(s: State, w: WorkerId, handlers: Handlers, id: Id)
    requires Inv(s) && Enabled(s, CommitClaim(w), handlers) && id in s.rows
    ensures Reached(Next(s, CommitClaim(w), handlers), id) >= Reached(s, id)
    ensures id in s.workers[w].ids ==> Reached(Next(s, CommitClaim(w), handlers), id) > Reached(s, id)
  {
    var s' := Next(s, CommitClaim(w), handlers);
    assert HoldsRows(s, s.workers[w]);
    forall v | v in s.workers && v != w ensures s'.workers[v] == s.workers[v] {
    }
    if id !in s.workers[w].ids && IsLocked(s, id) {
      var v :| v in s.workers && s.workers[v].Locking? && id in s.workers[v].ids;
      assert s'.workers[v].Locking? && id in s'.workers[v].ids;
    }
    forall v | v in s.workers && IsHead(s, v, id) ensures IsHead(s', v, id) && s'.workers[v] == s.workers[v] {
    }
  }

  // the steps on the first claim of a worker that leave the tables alone
  lemma HandlingReaches(s: State, step: Step, handlers: Handlers, id: Id)
    requires Inv(s) && Enabled(s, step, handlers) && (step.RunHandler? || step.DoneWriteFails?) && id in s.rows
    ensures Reached(Next(s, step, handlers), id) >= Reached(s, id)
    ensures IsHead(s, step.w, id) ==> Reached(Next(s, step, handlers), id) > Reached(s, id)
  {
    var s' := Next(s, step, handlers);
    StepKeepsInv(s, step, handlers);
    if IsHead(s, step.w, id) {
      ReachedAsHead(s, step.w, id);
      ReachedAsHead(s', step.w, id);
    } else {
      hide Inv;
      forall v | v in s.workers && IsHead(s, v, id) ensures IsHead(s', v, id) && s'.workers[v] == s.workers[v] {
      }
      LockedStays(s, s', step.w, id);
    }
  }

  lemma LockedStays(s: State, s': State, w: WorkerId, id: Id)
    requires w in s.workers && s.workers[w].Working?
    requires forall v | v in s.workers && v != w :: v in s'.workers && s'.workers[v] == s.workers[v]
    ensures IsLocked(s, id) ==> IsLocked(s', id)
  {
    if IsLocked(s, id) {
      var v :| v in s.workers && s.workers[v].Locking? && id in s.workers[v].ids;
      assert v in s'.workers && s'.workers[v].Locking? && id in s'.workers[v].ids;
    }
  }

  lemma SettleLeaves(s: State, w: WorkerId, handlers: Handlers, id: Id)
    requires Inv(s) && Enabled(s, SettleHead(w), handlers) && id in s.rows
    ensures id in Next(s, SettleHead(w), handlers).rows
    ensures Left(Next(s, SettleHead(w), handlers), id) <= Left(s, id)
    ensures IsHead(s, w, id) ==> Left(Next(s, SettleHead(w), handlers), id) < Left(s, id)
  {
    var s' := Next(s, SettleHead(w), handlers);
    assert RowSound(s.rows[id], s.history[id]);
    if IsHead(s, w, id) {
      ReachedAsHead(s, w, id);
      WeightStep(s, SettleHead(w), handlers, id);
    } else {
      hide Inv;
      forall v | v in s.workers && v != w ensures v in s'.workers && s'.workers[v] == s.workers[v] {
      }
      LockedStays(s, s', w, id);
      forall v | v in s.workers && IsHead(s, v, id) ensures IsHead(s', v, id) && s'.workers[v] == s.workers[v] {
      }
    }
  }

  lemma ReachedLeaves(s: State, s': State, id: Id)
    requires Inv(s) && id in s.rows && id in s'.rows && Weight(s'.rows[id]) == Weight(s.rows[id])
    requires Reached(s', id) >= Reached(s, id)
    ensures Left(s', id) <= Left(s, id)
    ensures Reached(s', id) > Reached(s, id) && !IsFinal(s.rows[id]) ==> Left(s', id) < Left(s, id)
  {
    assert RowSound(s.rows[id], s.history[id]);
  }

  // the row that a step takes further
  function MovedRow(s: State, step: Step): Id
    requires Progresses(s, step) && (step.RunHandler? || step.DoneWriteFails? || step.SettleHead? ==> Busy(s, step.w))
  {
    if step.SelectForUpdate? then step.ids[0]
    else if step.CommitClaim? then s.workers[step.w].ids[0]
    else s.workers[step.w].queue[0].id
  }

  lemma LeftStep(s: State, step: Step, handlers: Handlers, id: Id)
    requires Inv(s) && Enabled(s, step, handlers) && GoesOn(step) && id in s.rows
    ensures id in Next(s, step, handlers).rows && Left(Next(s, step, handlers), id) <= Left(s, id)
    ensures Progresses(s, step) && id == MovedRow(s, step) ==> Left(Next(s, step, handlers), id) < Left(s, id)
  {
    hide Left, Reached, Inv;
    if step.SelectForUpdate? {
      SelectReaches(s, step, handlers, id);
      SelectedPending(s, step, handlers);
      ReachedLeaves(s, Next(s, step, handlers), id);
    } else if step.CommitClaim? {
      CommitReaches(s, step.w, handlers, id);
      LockedPending(s, step.w);
      ReachedLeaves(s, Next(s, step, handlers), id);
    } else if step.SettleHead? {
      SettleLeaves(s, step.w, handlers, id);
    } else if step.Tick? || step.FinishBatch? {
      IdleReaches(s, step, handlers, id);
    } else {
      HandlingReaches(s, step, handlers, id);
      HeadProcessing(s, step.w);
      ReachedLeaves(s, Next(s, step, handlers), id);
    }
  }

  lemma SelectedPending(s: State, step: Step, handlers: Handlers)
    requires Enabled(s, step, handlers) && step.SelectForUpdate?
    ensures forall i | 0 <= i < |step.ids| :: step.ids[i] in s.rows && !IsFinal(s.rows[step.ids[i]])
  {
  }

  lemma LockedPending(s: State, w: WorkerId)
    requires Inv(s) && w in s.workers && s.workers[w].Locking?
    ensures forall i | 0 <= i < |s.workers[w].ids| ::
              s.workers[w].ids[i] in s.rows && !IsFinal(s.rows[s.workers[w].ids[i]])
  {
    assert HoldsRows(s, s.workers[w]);
  }

  lemma HeadProcessing(s: State, w: WorkerId)
    requires Inv(s) && Busy(s, w)
    ensures s.workers[w].queue[0].id in s.rows && s.rows[s.workers[w].queue[0].id].status == Processing
  {
    assert HoldsRows(s, s.workers[w]);
  }

  lemma IdleReaches(s: State, step: Step, handlers: Handlers, id: Id)
    requires Inv(s) && Enabled(s, step, handlers) && (step.Tick? || step.FinishBatch?) && id in s.rows
    ensures id in Next(s, step, handlers).rows && Left(Next(s, step, handlers), id) <= Left(s, id)
  {
    var s' := Next(s, step, handlers);
    forall v | v in s.workers && IsHead(s, v, id) ensures IsHead(s', v, id) && s'.workers[v] == s.workers[v] {
    }
    if step.FinishBatch? {
      LockedStays(s, s', step.w, id);
    }
    ReachedLeaves(s, s', id);
  }

  lemma MovedIsRow(s: State, step: Step, handlers: Handlers)
    requires Inv(s) && Enabled(s, step, handlers) && Progresses(s, step)
    ensures MovedRow(s, step) in s.rows
  {
    if step.SelectForUpdate? {
      SelectedPending(s, step, handlers);
    } else if step.CommitClaim? {
      LockedPending(s, step.w);
    } else {
      HeadProcessing(s, step.w);
    }
  }

  /** Every step that takes a row further uses up work, and without new rows and crashes no step adds any. */
  lemma {:induction false} ProgressUsesUpWork(s: State, step: Step, handlers: Handlers)
    requires Inv(s) && Enabled(s, step, handlers) && GoesOn(step)
    ensures Work(Next(s, step, handlers)) + (if Progresses(s, step) then 1 else 0) <= Work(s)
  {
    hide Left, Inv;
    var s' := Next(s, step, handlers);
    var before := map id | id in s.rows :: Left(s, id);
    var after := map id | id in s'.rows :: Left(s', id);
    SameRows(s, step, handlers);
    forall id | id in s.rows ensures after[id] <= before[id] {
      LeftStep(s, step, handlers, id);
    }
    if Progresses(s, step) {
      MovedIsRow(s, step, handlers);
      LeftStep(s, step, handlers, MovedRow(s, step));
      TotalLess(after, before, MovedRow(s, step));
    } else {
      TotalAtMost(after, before);
    }
  }

  // ---------------------------------------------------------------- some step can always be taken

  /** No row gets stuck while no worker has crashed on it: either the worker that holds it can take its next step,
      or, once the row is due, a new worker with any batch size locks it, or else a full batch of rows that are
      no younger. */
  lemma NeverStuck(s: State, handlers: Handlers, id: Id, w: WorkerId, batchSize: nat) returns (later: int, step: Step)
    requires Inv(s) && id in s.rows && !IsFinal(s.rows[id]) && w !in s.workers && batchSize > 0
    requires s.rows[id].status == Processing ==> exists v :: v in s.workers && Holds(s.workers[v], id)
    ensures s.now <= later && Enabled(s.(now := later), step, handlers) && Progresses(s.(now := later), step)
    ensures (step.SelectForUpdate? && step.w == w && step.limit == batchSize
             && (id in step.ids
                 || (|step.ids| == batchSize
                     && forall i | 0 <= i < batchSize ::
                          step.ids[i] in s.rows && s.rows[step.ids[i]].createdAt <= s.rows[id].createdAt)))
         || ((step.CommitClaim? || step.RunHandler? || step.SettleHead?) && step.w in s.workers
             && Holds(s.workers[step.w], id))
  {
    later := s.now;
    if v :| v in s.workers && Holds(s.workers[v], id) {
      var worker := s.workers[v];
      if worker.Locking? {
        step := CommitClaim(v);
      } else if worker.stage.Ready? && handlers(worker.queue[0].eventType) {
        step := RunHandler(v, true);
      } else {
        step := SettleHead(v);
      }
    } else {
      later := if s.rows[id].nextRetryAt.Some? && s.rows[id].nextRetryAt.value > s.now
               then s.rows[id].nextRetryAt.value
               else s.now;
      step := SelectDueRow(s, id, w, batchSize, later);
    }
  }

  // a row that nobody holds and that is due
  lemma SelectDueRow(s: State, id: Id, w: WorkerId, batchSize: nat, later: int) returns (step: Step)
    requires id in s.rows && IsDue(s.rows[id], later) && batchSize > 0
    requires forall v | v in s.workers :: !Holds(s.workers[v], id)
    ensures step.SelectForUpdate? && step.w == w && step.limit == batchSize && step.ids != []
    ensures Picks(Unlocked(s.(now := later)), later, batchSize, step.ids)
    ensures id in step.ids
         || (|step.ids| == batchSize
             && forall i | 0 <= i < batchSize ::
                  step.ids[i] in s.rows && s.rows[step.ids[i]].createdAt <= s.rows[id].createdAt)
  {
    var rows := Unlocked(s.(now := later));
    var ids := PicksExist(rows, later, batchSize);
    forall v | v in s.workers && s.workers[v].Locking? ensures id !in s.workers[v].ids {
      assert !Holds(s.workers[v], id);
    }
    assert id in rows;
    step := SelectForUpdate(w, batchSize, ids);
  }

  // ---------------------------------------------------------------- all rows can be settled

  ghost predicate Follows(s: State, step: Step, s': State, handlers: Handlers) {
    Enabled(s, step, handlers) && s' == Next(s, step, handlers)
  }

  ghost predicate IsPath(states: seq<State>, steps: seq<Step>, handlers: Handlers) {
    && |states| == |steps| + 1
    && forall i | 0 <= i < |steps| :: Follows(states[i], steps[i], states[i + 1], handlers)
  }

  predicate AllFinal(s: State) {
    forall id | id in s.rows :: IsFinal(s.rows[id])
  }

  // no new rows, no crashes, and every batch of one size
  predicate GoesOnWith(step: Step, batchSize: nat) {
    GoesOn(step) && (step.SelectForUpdate? ==> step.limit == batchSize)
  }

  // some continuation without new rows and crashes ends with every row done or dead
  ghost predicate CanSettle(s: State, handlers: Handlers, batchSize: nat) {
    exists states, steps ::
      IsPath(states, steps, handlers) && states[0] == s
      && (forall i | 0 <= i < |steps| :: GoesOnWith(steps[i], batchSize)) && AllFinal(states[|steps|])
  }

  // a row in processing that no worker holds
  predicate Stranded(s: State, id: Id) {
    id in s.rows && s.rows[id].status == Processing && forall w | w in s.workers :: !Holds(s.workers[w], id)
  }

  predicate NoneStranded(s: State) {
    forall id | id in s.rows :: !Stranded(s, id)
  }

  lemma SettledAlready(s: State, handlers: Handlers, batchSize: nat)
    requires AllFinal(s)
    ensures CanSettle(s, handlers, batchSize)
  {
    assert IsPath([s], [], handlers) && [s][0] == s && AllFinal([s][0]);
  }

  lemma PathFrom(s: State, step: Step, states: seq<State>, steps: seq<Step>, handlers: Handlers)
    requires IsPath(states, steps, handlers) && Enabled(s, step, handlers) && states[0] == Next(s, step, handlers)
    ensures IsPath([s] + states, [step] + steps, handlers)
  {
    hide Next, Enabled;
    var longer, more := [s] + states, [step] + steps;
    assert Follows(longer[0], more[0], longer[1], handlers);
    forall i | 1 <= i < |more| ensures Follows(longer[i], more[i], longer[i + 1], handlers) {
      assert Follows(states[i - 1], steps[i - 1], states[i], handlers);
    }
  }

  lemma CanSettleBefore(s: State, step: Step, handlers: Handlers, batchSize: nat)
    requires Enabled(s, step, handlers) && GoesOnWith(step, batchSize)
    requires CanSettle(Next(s, step, handlers), handlers, batchSize)
    ensures CanSettle(s, handlers, batchSize)
  {
    hide Next, Enabled, AllFinal, Follows, GoesOnWith;
    var states, steps :| IsPath(states, steps, handlers) && states[0] == Next(s, step, handlers)
                         && (forall i | 0 <= i < |steps| :: GoesOnWith(steps[i], batchSize))
                         && AllFinal(states[|steps|]);
    PathFrom(s, step, states, steps, handlers);
    var longer, more := [s] + states, [step] + steps;
    assert longer[0] == s && longer[|more|] == states[|steps|];
    assert forall i | 0 <= i < |more| :: GoesOnWith(more[i], batchSize);
  }

  // a claim committed holds the rows it has marked
  lemma CommittedHolds(s: State, w: WorkerId, handlers: Handlers, id: Id)
    requires Inv(s) && Enabled(s, CommitClaim(w), handlers) && id in s.workers[w].ids
    ensures w in Next(s, CommitClaim(w), handlers).workers && Holds(Next(s, CommitClaim(w), handlers).workers[w], id)
  {
    var ids := s.workers[w].ids;
    assert HoldsRows(s, s.workers[w]);
    ClaimsShape(s.rows, ids);
    var i :| 0 <= i < |ids| && ids[i] == id;
    assert Claims(s.rows, ids)[i].id == id;
  }

  // a worker that settles its first claim still holds the others
  lemma SettledHolds(s: State, w: WorkerId, handlers: Handlers, id: Id)
    requires Inv(s) && Enabled(s, SettleHead(w), handlers) && Holds(s.workers[w], id) && id != s.workers[w].queue[0].id
    ensures Holds(Next(s, SettleHead(w), handlers).workers[w], id)
  {
    var queue := s.workers[w].queue;
    var i :| 0 <= i < |queue| && queue[i].id == id;
    assert queue[1..][i - 1].id == id;
  }

  lemma SettledNotProcessing(row: Row, outcome: Outcome, now: int)
    ensures Settle(row, outcome, now).status != Processing
  {
  }

  // a row in processing before the step is held after it, if it is still in processing
  lemma StillHeld(s: State, step: Step, handlers: Handlers, id: Id, v: WorkerId)
    requires Inv(s) && Enabled(s, step, handlers) && !step.Crash?
    requires v in s.workers && Holds(s.workers[v], id) && id in s.rows && s.rows[id].status == Processing
    requires id in Next(s, step, handlers).rows && Next(s, step, handlers).rows[id].status == Processing
    ensures v in Next(s, step, handlers).workers && Holds(Next(s, step, handlers).workers[v], id)
  {
    assert HoldsRows(s, s.workers[v]);
    if step == SettleHead(v) {
      SettledNotProcessing(s.rows[id].(attempts := s.workers[v].queue[0].attempts), HeadOutcome(s.workers[v].stage),
                           s.now);
      SettledHolds(s, v, handlers, id);
    }
  }

  lemma StepStrandsNone(s: State, step: Step, handlers: Handlers)
    requires Inv(s) && NoneStranded(s) && Enabled(s, step, handlers) && !step.Crash?
    ensures NoneStranded(Next(s, step, handlers))
  {
    hide Inv, Holds, Next;
    var s' := Next(s, step, handlers);
    forall id | id in s'.rows && s'.rows[id].status == Processing
      ensures exists w :: w in s'.workers && Holds(s'.workers[w], id)
    {
      if id in s.rows && s.rows[id].status == Processing {
        assert !Stranded(s, id);
        var v :| v in s.workers && Holds(s.workers[v], id);
        StillHeld(s, step, handlers, id, v);
      } else {
        OnlyClaimsMark(s, step, handlers, id);
        CommittedHolds(s, step.w, handlers, id);
      }
    }
  }

  lemma OnlyClaimsMark(s: State, step: Step, handlers: Handlers, id: Id)
    requires Enabled(s, step, handlers) && id in Next(s, step, handlers).rows
    requires Next(s, step, handlers).rows[id].status == Processing
    requires id !in s.rows || s.rows[id].status != Processing
    ensures step.CommitClaim? && id in s.workers[step.w].ids
  {
    hide ComputeBackoffMs;
  }

  /** From every state in which no crash has stranded a row, workers with any batch size can go on, without new rows
      and crashes, until every row is done or dead. */
  lemma AllRowsCanSettle(s: State, handlers: Handlers, batchSize: nat)
    requires Inv(s) && NoneStranded(s) && batchSize > 0
    ensures CanSettle(s, handlers, batchSize)
    decreases Work(s)
  {
    hide CanSettle, Inv, Next, Enabled, Work, Progresses, Holds;
    if AllFinal(s) {
      SettledAlready(s, handlers, batchSize);
    } else {
      var id :| id in s.rows && !IsFinal(s.rows[id]);
      assert !Stranded(s, id);
      var w := UnusedId(s.workers.Keys);
      var later, step := NeverStuck(s, handlers, id, w, batchSize);
      var ready := s.(now := later);
      Waited(s, later, handlers);
      StepKeepsInv(ready, step, handlers);
      StepStrandsNone(ready, step, handlers);
      ProgressUsesUpWork(ready, step, handlers);
      AllRowsCanSettle(Next(ready, step, handlers), handlers, batchSize);
      CanSettleBefore(ready, step, handlers, batchSize);
      CanSettleBefore(s, Tick(later), handlers, batchSize);
    }
  }

  lemma Waited(s: State, later: int, handlers: Handlers)
    requires Inv(s) && NoneStranded(s) && s.now <= later
    ensures Enabled(s, Tick(later), handlers) && Next(s, Tick(later), handlers) == s.(now := later)
    ensures Inv(s.(now := later)) && NoneStranded(s.(now := later)) && Work(s.(now := later)) <= Work(s)
  {
    hide Inv, NoneStranded, Work;
    StepKeepsInv(s, Tick(later), handlers);
    StepStrandsNone(s, Tick(later), handlers);
    ProgressUsesUpWork(s, Tick(later), handlers);
  }

  lemma {:induction false} CrashFreeStrandsNone(states: seq<State>, steps: seq<Step>, handlers: Handlers, i: nat)
    requires IsRun(states, steps, handlers) && i < |states| && forall k | 0 <= k < i :: !steps[k].Crash?
    ensures NoneStranded(states[i])
  {
    hide Next, Enabled, Inv;
    if i > 0 {
      hide NoneStranded;
      CrashFreeStrandsNone(states, steps, handlers, i - 1);
      RunKeepsInv(states, steps, handlers, i - 1);
      StepStrandsNone(states[i - 1], steps[i - 1], handlers);
    }
  }

  // what a worker holds it held before, or it has just selected it
  lemma HeldBefore(s: State, step: Step, handlers: Handlers, id: Id, v: WorkerId)
    requires Enabled(s, step, handlers) && v in Next(s, step, handlers).workers
             && Holds(Next(s, step, handlers).workers[v], id)
    ensures (v in s.workers && Holds(s.workers[v], id)) || (step.SelectForUpdate? && id in step.ids)
  {
    if step == SettleHead(v) {
      var queue := s.workers[v].queue;
      var i :| 0 <= i < |queue[1..]| && queue[1..][i].id == id;
      assert queue[i + 1].id == id;
    } else if step == CommitClaim(v) {
      ClaimsFrom(s.rows, s.workers[v].ids, id);
    }
  }

  lemma {:induction false} ClaimsFrom(rows: Table, ids: seq<Id>, id: Id)
    requires exists i :: 0 <= i < |Claims(rows, ids)| && Claims(rows, ids)[i].id == id
    ensures id in ids
  {
    var i :| 0 <= i < |Claims(rows, ids)| && Claims(rows, ids)[i].id == id;
    if ids != [] && id != ids[0] {
      assert Claims(rows, ids)[i] in Claims(rows, ids[1..]);
      var j :| 0 <= j < |Claims(rows, ids[1..])| && Claims(rows, ids[1..])[j] == Claims(rows, ids)[i];
      ClaimsFrom(rows, ids[1..], id);
    }
  }

  lemma StrandedStep(s: State, step: Step, handlers: Handlers, id: Id)
    requires Enabled(s, step, handlers) && Stranded(s, id)
    requires step.EnqueueRow? ==> step.id != id
    ensures Stranded(Next(s, step, handlers), id)
  {
    var s' := Next(s, step, handlers);
    forall v | v in s'.workers && Holds(s'.workers[v], id)
      ensures (v in s.workers && Holds(s.workers[v], id)) || (step.SelectForUpdate? && id in step.ids)
    {
      HeldBefore(s, step, handlers, id, v);
    }
    if step.SettleHead? {
      assert Holds(s.workers[step.w], s.workers[step.w].queue[0].id);
    }
  }

  lemma {:induction false} StrandedForever(states: seq<State>, steps: seq<Step>, handlers: Handlers, k: nat, id: Id)
    requires IsPath(states, steps, handlers) && k <= |steps| && Stranded(states[0], id)
    ensures Stranded(states[k], id)
  {
    hide Next, Stranded, Enabled;
    if k > 0 {
      assert Follows(states[k - 1], steps[k - 1], states[k], handlers);
      StrandedForever(states, steps, handlers, k - 1, id);
      NotNew(states[k - 1], steps[k - 1], handlers, id);
      StrandedStep(states[k - 1], steps[k - 1], handlers, id);
    }
  }

  lemma NotNew(s: State, step: Step, handlers: Handlers, id: Id)
    requires Enabled(s, step, handlers) && Stranded(s, id)
    ensures step.EnqueueRow? ==> step.id != id
  {
  }

  lemma StrandedStays(s: State, handlers: Handlers, id: Id, batchSize: nat)
    requires Stranded(s, id)
    ensures !CanSettle(s, handlers, batchSize)
  {
    hide Stranded, Next, Enabled;
    forall states, steps | IsPath(states, steps, handlers) && states[0] == s ensures !AllFinal(states[|steps|]) {
      StrandedForever(states, steps, handlers, |steps|, id);
      StrandedNotFinal(states[|steps|], id);
    }
  }

  lemma StrandedNotFinal(s: State, id: Id)
    requires Stranded(s, id)
    ensures !AllFinal(s)
  {
  }

  /** At every point of every run, and with any batch size, all rows can still become done or dead, exactly unless a
      crash has left some in processing that nobody holds; without crashes there is none. */
  lemma AllRowsSettle(states: seq<State>, steps: seq<Step>, handlers: Handlers, i: nat, batchSize: nat)
    requires IsRun(states, steps, handlers) && i < |states| && batchSize > 0
    ensures CanSettle(states[i], handlers, batchSize) <==> NoneStranded(states[i])
    ensures (forall k | 0 <= k < i :: !steps[k].Crash?) ==> NoneStranded(states[i])
  {
    hide Inv, CanSettle, Next, Enabled, Holds;
    RunKeepsInv(states, steps, handlers, i);
    if forall k | 0 <= k < i :: !steps[k].Crash? {
      CrashFreeStrandsNone(states, steps, handlers, i);
    }
    if NoneStranded(states[i]) {
      AllRowsCanSettle(states[i], handlers, batchSize);
    } else {
      var id :| Stranded(states[i], id);
      StrandedStays(states[i], handlers, id, batchSize);
    }
  }

  // ---------------------------------------------------------------- all rows settle

  // a continuation without end, new rows and crashes
  ghost predicate IsEndless(states: nat -> State, steps: nat -> Step, handlers: Handlers) {
    forall i: nat :: GoesOn(steps(i)) && Follows(states(i), steps(i), states(i + 1), handlers)
  }

  // while a row is not done or dead, sooner or later a step takes some row further
  ghost predicate KeepsGoing(states: nat -> State, steps: nat -> Step) {
    forall i: nat :: AllFinal(states(i)) || exists j: nat :: i <= j && Progresses(states(j), steps(j))
  }

  lemma {:induction false} WorkFalls(states: nat -> State, steps: nat -> Step, handlers: Handlers, i: nat, j: nat)
    requires IsEndless(states, steps, handlers) && i <= j && Inv(states(i))
    ensures Inv(states(j)) && Work(states(j)) <= Work(states(i))
    decreases j - i
  {
    hide Inv, Work, Next, Enabled;
    if i < j {
      WorkFalls(states, steps, handlers, i, j - 1);
      assert Follows(states(j - 1), steps(j - 1), states(j - 1 + 1), handlers);
      StepKeepsInv(states(j - 1), steps(j - 1), handlers);
      ProgressUsesUpWork(states(j - 1), steps(j - 1), handlers);
    }
  }

  lemma FinalStays(states: nat -> State, steps: nat -> Step, handlers: Handlers, i: nat, j: nat)
    requires IsEndless(states, steps, handlers) && i <= j && Inv(states(i)) && AllFinal(states(i))
    ensures AllFinal(states(j))
    decreases j - i
  {
    hide Inv, Next, Enabled, IsFinal;
    if i < j {
      FinalStays(states, steps, handlers, i, j - 1);
      WorkFalls(states, steps, handlers, i, j - 1);
      var s, step := states(j - 1), steps(j - 1);
      assert Follows(s, step, states(j - 1 + 1), handlers);
      SameRows(s, step, handlers);
      forall id | id in states(j).rows ensures IsFinal(states(j).rows[id]) {
        FinalRowKept(s, step, handlers, id);
      }
    }
  }

  lemma SettlesFrom(states: nat -> State, steps: nat -> Step, handlers: Handlers, i: nat) returns (n: nat)
    requires IsEndless(states, steps, handlers) && KeepsGoing(states, steps) && Inv(states(i))
    ensures i <= n && AllFinal(states(n))
    decreases Work(states(i))
  {
    hide Inv, Work, Next, Enabled, AllFinal, Progresses;
    if AllFinal(states(i)) {
      n := i;
    } else {
      var j: nat :| i <= j && Progresses(states(j), steps(j));
      WorkFalls(states, steps, handlers, i, j);
      assert Follows(states(j), steps(j), states(j + 1), handlers);
      StepKeepsInv(states(j), steps(j), handlers);
      ProgressUsesUpWork(states(j), steps(j), handlers);
      n := SettlesFrom(states, steps, handlers, j + 1);
    }
  }

  /** Every continuation of a run, without new rows and crashes, in which the workers keep going comes to a point from
      which on every row is done or dead. */
  lemma GoingOnSettles(states: nat -> State, steps: nat -> Step, handlers: Handlers) returns (n: nat)
    requires Inv(states(0)) && IsEndless(states, steps, handlers) && KeepsGoing(states, steps)
    ensures forall m: nat | n <= m :: AllFinal(states(m))
  {
    hide Inv, IsEndless, KeepsGoing, AllFinal;
    n := SettlesFrom(states, steps, handlers, 0);
    WorkFalls(states, steps, handlers, 0, n);
    forall m: nat | n <= m ensures AllFinal(states(m)) {
      FinalStays(states, steps, handlers, n, m);
    }
  }
}
