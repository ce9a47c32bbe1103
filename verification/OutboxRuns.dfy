/** Any number of outbox workers, interleaved between every two statements and crashing anywhere. */
module OutboxRuns {
  import opened Tables
  import opened Outbox

  type WorkerId = nat

  datatype Claim = Claim(id: Id, eventType: EventType, attempts: nat) // the claimed row as selected

  datatype Stage = Ready | Ran(ok: bool) // whether the handler of the first claim has run

  datatype Worker =
    | Locking(ids: seq<Id>) // rows locked by SELECT ... FOR UPDATE SKIP LOCKED, not yet marked
    | Working(queue: seq<Claim>, stage: Stage)

  // what has happened to a row so far
  datatype History = History(runs: nat, failures: nat)

  datatype State = State(rows: Table, workers: map<WorkerId, Worker>, now: int, history: map<Id, History>)

  datatype Step =
    | EnqueueRow(id: Id, eventType: EventType)
    | SelectForUpdate(w: WorkerId, limit: nat, ids: seq<Id>)
    | CommitClaim(w: WorkerId)
    | RunHandler(w: WorkerId, ok: bool)
    | DoneWriteFails(w: WorkerId) // the update to done throws inside the try block
    | SettleHead(w: WorkerId)
    | FinishBatch(w: WorkerId)
    | Crash(w: WorkerId)
    | Tick(now: int)

  predicate Distinct(ids: seq<Id>) {
    forall i, j | 0 <= i < j < |ids| :: ids[i] != ids[j]
  }

  predicate IsLocked(s: State, id: Id) {
    exists w :: w in s.workers && s.workers[w].Locking? && id in s.workers[w].ids
  }

  // what SKIP LOCKED leaves to select from
  function Unlocked(s: State): Table {
    map id | id in s.rows && !IsLocked(s, id) :: s.rows[id]
  }

  predicate Busy(s: State, w: WorkerId) {
    w in s.workers && s.workers[w].Working? && s.workers[w].queue != []
  }

  ghost predicate Enabled(s: State, step: Step, handlers: Handlers) {
    match step
    case EnqueueRow(id, _) => id !in s.rows
    case SelectForUpdate(w, limit, ids) => w !in s.workers && Picks(Unlocked(s), s.now, limit, ids)
    case CommitClaim(w) => w in s.workers && s.workers[w].Locking?
    case RunHandler(w, _) => Busy(s, w) && s.workers[w].stage.Ready? && handlers(s.workers[w].queue[0].eventType)
    case DoneWriteFails(w) => Busy(s, w) && s.workers[w].stage == Ran(true)
    case SettleHead(w) => Busy(s, w) && (s.workers[w].stage.Ran? || !handlers(s.workers[w].queue[0].eventType))
    case FinishBatch(w) => w in s.workers && s.workers[w].Working? && s.workers[w].queue == []
    case Crash(w) => w in s.workers
    case Tick(now) => s.now <= now
  }

  function Claims(rows: Table, ids: seq<Id>): (r: seq<Claim>)
    ensures |r| <= |ids|
  {
    if ids == [] then []
    else if ids[0] in rows then [Claim(ids[0], rows[ids[0]].eventType, rows[ids[0]].attempts)] + Claims(rows, ids[1..])
    else Claims(rows, ids[1..])
  }

  function HeadOutcome(stage: Stage): Outcome {
    match stage
    case Ready => NoHandler
    case Ran(ok) => if ok then Succeeded else Threw
  }

  // The final write of the first claim; attempt_count is computed from the row as it was selected.
  function Written(s: State, claim: Claim, outcome: Outcome): Table {
    if claim.id in s.rows
    then s.rows[claim.id := Settle(s.rows[claim.id].(attempts := claim.attempts), outcome, s.now)]
    else s.rows
  }

  function Recorded(s: State, claim: Claim, outcome: Outcome): map<Id, History> {
    if outcome == Threw && claim.id in s.history then
      s.history[claim.id := s.history[claim.id].(failures := s.history[claim.id].failures + 1)]
    else s.history
  }

  function Next(s: State, step: Step, handlers: Handlers): State
    requires Enabled(s, step, handlers)
  {
    match step
    case EnqueueRow(id, eventType) =>
      s.(rows := s.rows[id := Row(eventType, Pending, 0, None, s.now)], history := s.history[id := History(0, 0)])
    case SelectForUpdate(w, _, ids) => s.(workers := s.workers[w := Locking(ids)])
    case CommitClaim(w) =>
      var ids := s.workers[w].ids;
      s.(rows := map id | id in s.rows :: if id in ids then s.rows[id].(status := Processing) else s.rows[id],
         workers := s.workers[w := Working(Claims(s.rows, ids), Ready)])
    case RunHandler(w, ok) =>
      var id := s.workers[w].queue[0].id;
      s.(workers := s.workers[w := s.workers[w].(stage := Ran(ok))],
         history := if id in s.history
                    then s.history[id := s.history[id].(runs := s.history[id].runs + 1)]
                    else s.history)
    case DoneWriteFails(w) => s.(workers := s.workers[w := s.workers[w].(stage := Ran(false))])
    case SettleHead(w) =>
      var worker := s.workers[w];
      var outcome := HeadOutcome(worker.stage);
      s.(rows := Written(s, worker.queue[0], outcome),
         workers := s.workers[w := Working(worker.queue[1..], Ready)],
         history := Recorded(s, worker.queue[0], outcome))
    case FinishBatch(w) => s.(workers := s.workers - {w})
    case Crash(w) => s.(workers := s.workers - {w})
    case Tick(now) => s.(now := now)
  }

  ghost predicate IsRun(states: seq<State>, steps: seq<Step>, handlers: Handlers) {
    && |states| == |steps| + 1
    && states[0].rows == map[] && states[0].workers == map[] && states[0].history == map[]
    && forall i | 0 <= i < |steps| ::
      Enabled(states[i], steps[i], handlers) && states[i + 1] == Next(states[i], steps[i], handlers)
  }

  // ---------------------------------------------------------------- the invariant

  // how often the handler has run on a row that worker `worker` holds at position i
  function RunsHere(worker: Worker, i: nat): nat
    requires worker.Working?
  {
    if i == 0 && worker.stage.Ran? then 1 else 0
  }

  ghost predicate HoldsRows(s: State, worker: Worker) {
    match worker
    case Locking(ids) =>
      Distinct(ids) && forall i | 0 <= i < |ids| :: ids[i] in s.rows && s.rows[ids[i]].status == Pending
    case Working(queue, _) =>
      && (forall i, j | 0 <= i < j < |queue| :: queue[i].id != queue[j].id)
      && (forall i | 0 <= i < |queue| ::
            && queue[i].id in s.rows && queue[i].id in s.history
            && s.rows[queue[i].id].status == Processing
            && s.rows[queue[i].id].attempts == queue[i].attempts
            && s.rows[queue[i].id].eventType == queue[i].eventType
            && s.history[queue[i].id].runs == queue[i].attempts + RunsHere(worker, i))
  }

  predicate Holds(worker: Worker, id: Id) {
    match worker
    case Locking(ids) => id in ids
    case Working(queue, _) => exists i :: 0 <= i < |queue| && queue[i].id == id
  }

  ghost predicate RowSound(row: Row, h: History) {
    && h.failures == row.attempts
    && row.attempts <= MAX_ATTEMPTS
    && (row.status != Dead ==> row.attempts < MAX_ATTEMPTS)
    && match row.status
       case Pending => h.runs == row.attempts
       case Processing => row.attempts <= h.runs <= row.attempts + 1
       case Done => h.runs == row.attempts + 1
       case Dead => h.runs == row.attempts
  }

  ghost predicate Inv(s: State) {
    && s.history.Keys == s.rows.Keys
    && (forall id | id in s.rows :: RowSound(s.rows[id], s.history[id]))
    && (forall w | w in s.workers :: HoldsRows(s, s.workers[w]))
    && (forall v, w, id | v in s.workers && w in s.workers && Holds(s.workers[v], id) && Holds(s.workers[w], id) ::
          v == w)
  }

  // ---------------------------------------------------------------- each step

  lemma {:induction false} ClaimsShape(rows: Table, ids: seq<Id>)
    requires forall i | 0 <= i < |ids| :: ids[i] in rows
    ensures |Claims(rows, ids)| == |ids|
    ensures forall i | 0 <= i < |ids| ::
              Claims(rows, ids)[i] == Claim(ids[i], rows[ids[i]].eventType, rows[ids[i]].attempts)
  {
    if ids != [] {
      ClaimsShape(rows, ids[1..]);
    }
  }

  // a worker whose held rows are untouched still holds them
  lemma StillHolds(s: State, s': State, worker: Worker)
    requires HoldsRows(s, worker)
    requires forall id | Holds(worker, id) ::
               (id in s.rows ==> id in s'.rows && s'.rows[id] == s.rows[id])
               && (id in s.history ==> id in s'.history && s'.history[id] == s.history[id])
    ensures HoldsRows(s', worker)
  {
    match worker {
      case Locking(ids) =>
        forall i | 0 <= i < |ids| ensures ids[i] in s'.rows && s'.rows[ids[i]].status == Pending {
          assert Holds(worker, ids[i]);
        }
      case Working(queue, _) =>
        forall i | 0 <= i < |queue| ensures Holds(worker, queue[i].id) {
        }
    }
  }

  // a step of worker w that changes only rows w holds
  lemma OwnStep(s: State, s': State, w: WorkerId)
    requires Inv(s) && w in s.workers && w in s'.workers && s'.workers == s.workers[w := s'.workers[w]]
    requires s'.rows.Keys == s.rows.Keys && s'.history.Keys == s'.rows.Keys
    requires forall id | id in s.rows && !Holds(s.workers[w], id) ::
               s'.rows[id] == s.rows[id] && s'.history[id] == s.history[id]
    requires forall id | Holds(s'.workers[w], id) :: Holds(s.workers[w], id)
    requires HoldsRows(s', s'.workers[w])
    requires forall id | id in s.rows && Holds(s.workers[w], id) :: RowSound(s'.rows[id], s'.history[id])
    ensures Inv(s')
  {
    forall v | v in s'.workers ensures HoldsRows(s', s'.workers[v]) {
      if v != w {
        StillHolds(s, s', s.workers[v]);
      }
    }
    forall id | id in s'.rows ensures RowSound(s'.rows[id], s'.history[id]) {
      if !Holds(s.workers[w], id) {
        assert RowSound(s.rows[id], s.history[id]);
      }
    }
  }

  // what a worker has marked, it holds
  lemma ClaimsHeld(s: State, w: WorkerId, handlers: Handlers)
    requires Inv(s) && Enabled(s, CommitClaim(w), handlers)
    ensures HoldsRows(Next(s, CommitClaim(w), handlers), Next(s, CommitClaim(w), handlers).workers[w])
    ensures forall id | Holds(Next(s, CommitClaim(w), handlers).workers[w], id) :: Holds(s.workers[w], id)
  {
    var ids := s.workers[w].ids;
    assert HoldsRows(s, s.workers[w]);
    ClaimsShape(s.rows, ids);
    forall i | 0 <= i < |ids| ensures s.history[ids[i]].runs == s.rows[ids[i]].attempts {
      assert RowSound(s.rows[ids[i]], s.history[ids[i]]);
    }
    hide RowSound;
  }

  lemma CommitClaimKeepsInv(s: State, w: WorkerId, handlers: Handlers)
    requires Inv(s) && Enabled(s, CommitClaim(w), handlers)
    ensures Inv(Next(s, CommitClaim(w), handlers))
  {
    var s' := Next(s, CommitClaim(w), handlers);
    ClaimsHeld(s, w, handlers);
    assert HoldsRows(s, s.workers[w]);
    forall id | id in s.rows && Holds(s.workers[w], id) ensures RowSound(s'.rows[id], s'.history[id]) {
      assert RowSound(s.rows[id], s.history[id]);
    }
    hide RowSound;
    OwnStep(s, s', w);
  }

  lemma HandlerKeepsInv(s: State, w: WorkerId, ok: bool, handlers: Handlers)
    requires Inv(s) && Enabled(s, RunHandler(w, ok), handlers)
    ensures Inv(Next(s, RunHandler(w, ok), handlers))
  {
    var s' := Next(s, RunHandler(w, ok), handlers);
    var worker := s.workers[w];
    var head := worker.queue[0].id;
    assert HoldsRows(s, worker);
    assert Holds(worker, head);
    assert RowSound(s.rows[head], s.history[head]);
    forall id | id in s.rows && Holds(worker, id) ensures RowSound(s'.rows[id], s'.history[id]) {
      assert RowSound(s.rows[id], s.history[id]);
    }
    OwnStep(s, s', w);
  }

  lemma SettledSound(row: Row, h: History, outcome: Outcome, now: int)
    requires RowSound(row, h) && row.status == Processing
    requires h.runs == row.attempts + (if outcome == NoHandler then 0 else 1)
    ensures RowSound(Settle(row, outcome, now), if outcome == Threw then h.(failures := h.failures + 1) else h)
  {
  }

  // the claims behind the first stay held
  lemma RestHeld(s: State, w: WorkerId, handlers: Handlers)
    requires Enabled(s, SettleHead(w), handlers) && HoldsRows(s, s.workers[w])
    ensures HoldsRows(Next(s, SettleHead(w), handlers), Next(s, SettleHead(w), handlers).workers[w])
    ensures forall id | Holds(Next(s, SettleHead(w), handlers).workers[w], id) :: Holds(s.workers[w], id)
  {
    hide Settle, ComputeBackoffMs;
    var worker, worker' := s.workers[w], Next(s, SettleHead(w), handlers).workers[w];
    forall id | Holds(worker', id) ensures Holds(worker, id) {
      var i :| 0 <= i < |worker'.queue| && worker'.queue[i].id == id;
      assert worker.queue[i + 1].id == id;
    }
  }

  lemma HeadSound(s: State, w: WorkerId, handlers: Handlers)
    requires Enabled(s, SettleHead(w), handlers) && HoldsRows(s, s.workers[w])
    requires RowSound(s.rows[s.workers[w].queue[0].id], s.history[s.workers[w].queue[0].id])
    ensures s.workers[w].queue[0].id in s.rows
    ensures RowSound(Next(s, SettleHead(w), handlers).rows[s.workers[w].queue[0].id],
                     Next(s, SettleHead(w), handlers).history[s.workers[w].queue[0].id])
  {
    var head := s.workers[w].queue[0].id;
    assert s.rows[head].(attempts := s.workers[w].queue[0].attempts) == s.rows[head];
    SettledSound(s.rows[head], s.history[head], HeadOutcome(s.workers[w].stage), s.now);
    hide Settle, RowSound;
  }

  lemma SettleKeepsInv(s: State, w: WorkerId, handlers: Handlers)
    requires Inv(s) && Enabled(s, SettleHead(w), handlers)
    ensures Inv(Next(s, SettleHead(w), handlers))
  {
    var s' := Next(s, SettleHead(w), handlers);
    var worker := s.workers[w];
    var head := worker.queue[0].id;
    assert HoldsRows(s, worker);
    assert RowSound(s.rows[head], s.history[head]);
    RestHeld(s, w, handlers);
    HeadSound(s, w, handlers);
    assert Holds(worker, head);
    hide HoldsRows, Settle;
    forall id | id in s.rows && Holds(worker, id) ensures RowSound(s'.rows[id], s'.history[id]) {
      assert RowSound(s.rows[id], s.history[id]);
    }
    hide RowSound, Holds;
    OwnStep(s, s', w);
  }

  lemma QuietStepKeepsInv(s: State, step: Step, handlers: Handlers)
    requires Inv(s) && Enabled(s, step, handlers)
    requires step.SelectForUpdate? || step.DoneWriteFails? || step.FinishBatch? || step.Crash? || step.Tick?
    ensures Inv(Next(s, step, handlers))
  {
    var s' := Next(s, step, handlers);
    forall v | v in s'.workers ensures HoldsRows(s', s'.workers[v]) {
      if v in s.workers && s'.workers[v] == s.workers[v] {
        StillHolds(s, s', s.workers[v]);
      } else if v in s.workers {
        assert HoldsRows(s, s.workers[v]);
      }
    }
    if step.SelectForUpdate? {
      SelectedApart(s, step.w, step.limit, step.ids, handlers);
    }
  }

  // a newly locked row is held by nobody else: it is pending, and locked rows were skipped
  lemma SelectedApart(s: State, w: WorkerId, limit: nat, ids: seq<Id>, handlers: Handlers)
    requires Inv(s) && Enabled(s, SelectForUpdate(w, limit, ids), handlers)
    ensures forall v, id | v in s.workers && id in ids :: !Holds(s.workers[v], id)
  {
    forall v, id | v in s.workers && id in ids ensures !Holds(s.workers[v], id) {
      assert HoldsRows(s, s.workers[v]);
      var i :| 0 <= i < |ids| && ids[i] == id;
    }
  }

  lemma EnqueueKeepsInv(s: State, id: Id, eventType: EventType, handlers: Handlers)
    requires Inv(s) && Enabled(s, EnqueueRow(id, eventType), handlers)
    ensures Inv(Next(s, EnqueueRow(id, eventType), handlers))
  {
    var s' := Next(s, EnqueueRow(id, eventType), handlers);
    forall v | v in s'.workers ensures HoldsRows(s', s'.workers[v]) {
      StillHolds(s, s', s.workers[v]);
    }
  }

  lemma StepKeepsInv(s: State, step: Step, handlers: Handlers)
    requires Inv(s) && Enabled(s, step, handlers)
    ensures Inv(Next(s, step, handlers))
  {
    match step {
      case EnqueueRow(id, eventType) => EnqueueKeepsInv(s, id, eventType, handlers);
      case CommitClaim(w) => CommitClaimKeepsInv(s, w, handlers);
      case RunHandler(w, ok) => HandlerKeepsInv(s, w, ok, handlers);
      case SettleHead(w) => SettleKeepsInv(s, w, handlers);
      case _ => QuietStepKeepsInv(s, step, handlers);
    }
  }

  lemma {:induction false} RunKeepsInv(states: seq<State>, steps: seq<Step>, handlers: Handlers, i: nat)
    requires IsRun(states, steps, handlers) && i < |states|
    ensures Inv(states[i])
  {
    if i > 0 {
      RunKeepsInv(states, steps, handlers, i - 1);
      StepKeepsInv(states[i - 1], steps[i - 1], handlers);
    }
  }

  // ---------------------------------------------------------------- main results: safety

  /** A row is held by at most one worker at a time. */
  lemma HeldByAtMostOne(states: seq<State>, steps: seq<Step>, handlers: Handlers, i: nat, v: WorkerId, w: WorkerId,
                        id: Id)
    requires IsRun(states, steps, handlers) && i < |states| && v in states[i].workers && w in states[i].workers
    requires Holds(states[i].workers[v], id) && Holds(states[i].workers[w], id)
    ensures v == w
  {
    RunKeepsInv(states, steps, handlers, i);
  }

  // ---------------------------------------------------------------- what the steps of a run add up to

  predicate RunsOn(s: State, step: Step, id: Id) {
    step.RunHandler? && Busy(s, step.w) && s.workers[step.w].queue[0].id == id
  }

  predicate FailsOn(s: State, step: Step, id: Id) {
    step.SettleHead? && Busy(s, step.w) && s.workers[step.w].queue[0].id == id && s.workers[step.w].stage == Ran(false)
  }

  // what a step that makes the row pending has it wait: from the time of the write to the retry time written
  function WaitWritten(s: State, s': State, id: Id): int {
    if id in s.rows && id in s'.rows && s'.rows[id] != s.rows[id] && s'.rows[id].status == Pending
       && s'.rows[id].nextRetryAt.Some?
    then s'.rows[id].nextRetryAt.value - s.now
    else 0
  }

  function RunsOf(states: seq<State>, steps: seq<Step>, i: nat, id: Id): nat
    requires i <= |steps| <= |states|
  {
    if i == 0 then 0 else RunsOf(states, steps, i - 1, id) + if RunsOn(states[i - 1], steps[i - 1], id) then 1 else 0
  }

  function FailuresOf(states: seq<State>, steps: seq<Step>, i: nat, id: Id): nat
    requires i <= |steps| <= |states|
  {
    if i == 0 then 0
    else FailuresOf(states, steps, i - 1, id) + if FailsOn(states[i - 1], steps[i - 1], id) then 1 else 0
  }

  function WaitsOf(states: seq<State>, i: nat, id: Id): int
    requires i < |states|
  {
    if i == 0 then 0 else WaitsOf(states, i - 1, id) + WaitWritten(states[i - 1], states[i], id)
  }

  function BackoffOf(row: Row): nat {
    TotalBackoff(if row.attempts < MAX_ATTEMPTS then row.attempts else MAX_ATTEMPTS - 1)
  }

  /** A settled claim becomes what its outcome says, whoever else is at work. */
  lemma SettledRight(states: seq<State>, steps: seq<Step>, handlers: Handlers, i: nat)
    requires IsRun(states, steps, handlers) && i < |steps| && steps[i].SettleHead?
    ensures Busy(states[i], steps[i].w)
    ensures var id := states[i].workers[steps[i].w].queue[0].id;
            var stage := states[i].workers[steps[i].w].stage;
            && id in states[i].rows && id in states[i + 1].rows
            && SettledAs(states[i].rows[id], states[i + 1].rows[id], stage.Ran?, stage == Ran(false), states[i].now)
  {
    RunKeepsInv(states, steps, handlers, i);
    HeadSettledAs(states[i], steps[i].w, handlers);
  }

  lemma HeadSettledAs(s: State, w: WorkerId, handlers: Handlers)
    requires Inv(s) && Enabled(s, SettleHead(w), handlers)
    ensures var id, stage := s.workers[w].queue[0].id, s.workers[w].stage;
            && id in s.rows && id in Next(s, SettleHead(w), handlers).rows
            && s.rows[id].status == Processing && s.rows[id].attempts < MAX_ATTEMPTS
            && SettledAs(s.rows[id], Next(s, SettleHead(w), handlers).rows[id], stage.Ran?, stage == Ran(false), s.now)
  {
    var id, stage := s.workers[w].queue[0].id, s.workers[w].stage;
    assert HoldsRows(s, s.workers[w]);
    assert RowSound(s.rows[id], s.history[id]);
    assert s.rows[id].(attempts := s.workers[w].queue[0].attempts) == s.rows[id];
    SettlesAs(s.rows[id], _ => stage.Ran?, stage == Ran(false), s.now);
  }

  // the wait written is the one for the attempt that failed
  lemma WaitOfSettled(row: Row, after: Row, ran: bool, failed: bool, clock: int)
    requires SettledAs(row, after, ran, failed, clock) && row.attempts < MAX_ATTEMPTS && row.status == Processing
    requires failed ==> ran
    ensures BackoffOf(after) - BackoffOf(row)
            == if after.status == Pending && after.nextRetryAt.Some? then after.nextRetryAt.value - clock else 0
  {
    if row.attempts < 7 {
      BackoffBounds(row.attempts + 1);
    }
  }

  lemma SettledTallies(s: State, s': State, step: Step, id: Id)
    requires step.SettleHead? && Busy(s, step.w) && s.workers[step.w].queue[0].id == id && id in s.history
    requires s'.history == Recorded(s, s.workers[step.w].queue[0], HeadOutcome(s.workers[step.w].stage))
    ensures id in s'.history && s'.history[id].runs == s.history[id].runs
    ensures s'.history[id].failures == s.history[id].failures + if FailsOn(s, step, id) then 1 else 0
  {
  }

  lemma SettleTallies(s: State, w: WorkerId, handlers: Handlers, id: Id)
    requires Inv(s) && Enabled(s, SettleHead(w), handlers) && id in s.rows
    ensures var s' := Next(s, SettleHead(w), handlers);
            && id in s'.rows && id in s'.history && id in s.history && s'.history[id].runs == s.history[id].runs
            && s'.history[id].failures == s.history[id].failures + (if FailsOn(s, SettleHead(w), id) then 1 else 0)
            && WaitWritten(s, s', id) == BackoffOf(s'.rows[id]) - BackoffOf(s.rows[id])
  {
    hide RowSound, HoldsRows, BackoffOf, SettledAs, Settle;
    var s' := Next(s, SettleHead(w), handlers);
    var stage := s.workers[w].stage;
    if id == s.workers[w].queue[0].id {
      HeadSettledAs(s, w, handlers);
      WaitOfSettled(s.rows[id], s'.rows[id], stage.Ran?, stage == Ran(false), s.now);
      SettledTallies(s, s', SettleHead(w), id);
    }
  }

  // what one step adds to the tallies of a row
  lemma StepTallies(s: State, step: Step, handlers: Handlers, id: Id)
    requires Inv(s) && Enabled(s, step, handlers) && id in s.rows
    ensures var s' := Next(s, step, handlers);
            && id in s'.rows && id in s'.history && id in s.history
            && s'.history[id].runs == s.history[id].runs + (if RunsOn(s, step, id) then 1 else 0)
            && s'.history[id].failures == s.history[id].failures + (if FailsOn(s, step, id) then 1 else 0)
            && WaitWritten(s, s', id) == BackoffOf(s'.rows[id]) - BackoffOf(s.rows[id])
  {
    if step.SettleHead? {
      SettleTallies(s, step.w, handlers, id);
    } else {
      hide TotalBackoff, RowSound, HoldsRows;
    }
  }

  // nothing has happened to a row that is not there yet
  lemma NoTally(s: State, step: Step, handlers: Handlers, id: Id)
    requires Inv(s) && Enabled(s, step, handlers) && id !in s.rows
    ensures !RunsOn(s, step, id) && !FailsOn(s, step, id) && WaitWritten(s, Next(s, step, handlers), id) == 0
    ensures var s' := Next(s, step, handlers);
            id in s'.rows ==> id in s'.history && s'.history[id] == History(0, 0) && s'.rows[id].attempts == 0
  {
    if (step.RunHandler? || step.SettleHead?) && Busy(s, step.w) {
      assert HoldsRows(s, s.workers[step.w]);
    }
  }

  lemma {:induction false} HistoryTallies(states: seq<State>, steps: seq<Step>, handlers: Handlers, i: nat, id: Id)
    requires IsRun(states, steps, handlers) && i < |states|
    ensures id in states[i].rows ==>
              && id in states[i].history
              && states[i].history[id] == History(RunsOf(states, steps, i, id), FailuresOf(states, steps, i, id))
              && WaitsOf(states, i, id) == BackoffOf(states[i].rows[id])
    ensures id !in states[i].rows ==>
              RunsOf(states, steps, i, id) == FailuresOf(states, steps, i, id) == WaitsOf(states, i, id) == 0
  {
    hide Inv, Next, Enabled, RunsOn, FailsOn, WaitWritten;
    if i > 0 {
      HistoryTallies(states, steps, handlers, i - 1, id);
      RunKeepsInv(states, steps, handlers, i - 1);
      if id in states[i - 1].rows {
        StepTallies(states[i - 1], steps[i - 1], handlers, id);
      } else {
        NoTally(states[i - 1], steps[i - 1], handlers, id);
      }
    }
  }

  /** Over a whole run, crashes included, a row's handler runs at most 8 times, its attempt count is the number of
      failures written for it, and the waits written into it add up to at most 254 seconds. */
  lemma RunsAreBounded(states: seq<State>, steps: seq<Step>, handlers: Handlers, i: nat, id: Id)
    requires IsRun(states, steps, handlers) && i < |states| && id in states[i].rows
    ensures RunsOf(states, steps, i, id) <= 8
    ensures FailuresOf(states, steps, i, id) == states[i].rows[id].attempts <= 8
    ensures WaitsOf(states, i, id) <= 254_000
  {
    RunKeepsInv(states, steps, handlers, i);
    HistoryTallies(states, steps, handlers, i, id);
    var row := states[i].rows[id];
    assert RowSound(row, states[i].history[id]);
    BackoffBounds(if row.attempts < MAX_ATTEMPTS then row.attempts else MAX_ATTEMPTS - 1);
  }

  // ---------------------------------------------------------------- retries wait

  // locked rows are due
  ghost predicate LockedAreDue(s: State) {
    forall w, id | w in s.workers && s.workers[w].Locking? && id in s.workers[w].ids ::
      id in s.rows && IsDue(s.rows[id], s.now)
  }

  lemma LockedStayDue(s: State, step: Step, handlers: Handlers)
    requires Inv(s) && Enabled(s, step, handlers) && LockedAreDue(s)
    ensures LockedAreDue(Next(s, step, handlers))
  {
    var s' := Next(s, step, handlers);
    forall w, id | w in s'.workers && s'.workers[w].Locking? && id in s'.workers[w].ids
      ensures id in s'.rows && IsDue(s'.rows[id], s'.now)
    {
      if w in s.workers {
        assert HoldsRows(s, s.workers[w]) && Holds(s.workers[w], id);
        LockedKept(s, step, handlers, w, id);
      }
    }
  }

  // a locked row is changed by nobody else
  lemma LockedKept(s: State, step: Step, handlers: Handlers, w: WorkerId, id: Id)
    requires Inv(s) && Enabled(s, step, handlers) && w in s.workers && s.workers[w].Locking? && id in s.workers[w].ids
    requires id in s.rows && w in Next(s, step, handlers).workers && Next(s, step, handlers).workers[w].Locking?
    ensures id in Next(s, step, handlers).rows && Next(s, step, handlers).rows[id] == s.rows[id]
    ensures Next(s, step, handlers).now >= s.now
  {
    assert Holds(s.workers[w], id);
    if step.SettleHead? {
      assert Holds(s.workers[step.w], s.workers[step.w].queue[0].id);
    } else if step.CommitClaim? && step.w != w {
      assert !Holds(s.workers[step.w], id);
    }
    hide Inv, Settle;
  }

  lemma {:induction false} RunLockedAreDue(states: seq<State>, steps: seq<Step>, handlers: Handlers, i: nat)
    requires IsRun(states, steps, handlers) && i < |states|
    ensures LockedAreDue(states[i])
  {
    if i > 0 {
      hide Inv, Next, Enabled, LockedAreDue;
      RunLockedAreDue(states, steps, handlers, i - 1);
      RunKeepsInv(states, steps, handlers, i - 1);
      LockedStayDue(states[i - 1], steps[i - 1], handlers);
    }
  }

  // the row waits for its retry time, or that time has come
  predicate WaitsUntil(s: State, id: Id, time: int) {
    s.now >= time || (id in s.rows && s.rows[id].status == Pending && s.rows[id].nextRetryAt == Some(time))
  }

  lemma StillWaits(s: State, step: Step, handlers: Handlers, id: Id, time: int)
    requires Inv(s) && LockedAreDue(s) && Enabled(s, step, handlers) && WaitsUntil(s, id, time)
    ensures WaitsUntil(Next(s, step, handlers), id, time)
  {
    if s.now < time && step.SettleHead? {
      assert HoldsRows(s, s.workers[step.w]);
    }
    hide Inv, Settle;
  }

  lemma {:induction false} WaitsOn(states: seq<State>, steps: seq<Step>, handlers: Handlers, i: nat, j: nat, id: Id,
                                   time: int)
    requires IsRun(states, steps, handlers) && i <= j < |states| && WaitsUntil(states[i], id, time)
    ensures WaitsUntil(states[j], id, time)
  {
    hide Inv, Next, Enabled, LockedAreDue, WaitsUntil;
    if i < j {
      WaitsOn(states, steps, handlers, i, j - 1, id, time);
      RunKeepsInv(states, steps, handlers, j - 1);
      RunLockedAreDue(states, steps, handlers, j - 1);
      StillWaits(states[j - 1], steps[j - 1], handlers, id, time);
    }
  }

  // no row is selected before its retry time
  lemma SelectedIsDue(states: seq<State>, steps: seq<Step>, handlers: Handlers, j: nat, id: Id)
    requires IsRun(states, steps, handlers) && j < |steps| && steps[j].SelectForUpdate? && id in steps[j].ids
    ensures id in states[j].rows && states[j].rows[id].status == Pending
    ensures states[j].rows[id].nextRetryAt.Some? ==> states[j].rows[id].nextRetryAt.value <= states[j].now
  {
    hide Next;
    var k :| 0 <= k < |steps[j].ids| && steps[j].ids[k] == id;
    assert IsDue(Unlocked(states[j])[id], states[j].now);
  }

  /** Retries wait: after a failure, its attempts a by then, nobody selects the row for
      1000 * 2^(a + 1) ms, whatever the workers do and wherever they crash. */
  lemma RetriesWait(states: seq<State>, steps: seq<Step>, handlers: Handlers, i: nat, j: nat, id: Id)
    requires IsRun(states, steps, handlers) && i < j < |steps|
    requires id in states[i].rows && FailsOn(states[i], steps[i], id) && states[i].rows[id].attempts < 7
    requires steps[j].SelectForUpdate? && id in steps[j].ids
    ensures states[j].now >= states[i].now + 1000 * Power2(states[i].rows[id].attempts + 1)
  {
    var time := states[i].now + 1000 * Power2(states[i].rows[id].attempts + 1);
    assert WaitsUntil(states[i + 1], id, time) by {
      SettledRight(states, steps, handlers, i);
    }
    WaitsOn(states, steps, handlers, i + 1, j, id, time);
    SelectedIsDue(states, steps, handlers, j, id);
    hide IsRun;
  }

  lemma FinalRowKept(s: State, step: Step, handlers: Handlers, id: Id)
    requires Inv(s) && Enabled(s, step, handlers) && id in s.rows && IsFinal(s.rows[id])
    ensures var s' := Next(s, step, handlers); id in s'.rows && s'.rows[id] == s.rows[id]
  {
    if step.CommitClaim? || step.SettleHead? {
      assert HoldsRows(s, s.workers[step.w]);
    }
  }

  /** Done and dead rows never change again. */
  lemma {:induction false} FinalRowsNeverChange(states: seq<State>, steps: seq<Step>, handlers: Handlers, i: nat,
                                                j: nat, id: Id)
    requires IsRun(states, steps, handlers) && i <= j < |states| && id in states[i].rows && IsFinal(states[i].rows[id])
    ensures id in states[j].rows && states[j].rows[id] == states[i].rows[id]
  {
    hide Next, Enabled, Inv;
    if i < j {
      FinalRowsNeverChange(states, steps, handlers, i, j - 1, id);
      RunKeepsInv(states, steps, handlers, j - 1);
      FinalRowKept(states[j - 1], steps[j - 1], handlers, id);
    }
  }

  // ---------------------------------------------------------------- one batch with nothing in between

  // the steps one after the other, each possible where it is taken
  ghost predicate Leads(s: State, steps: seq<Step>, handlers: Handlers, later: State)
    decreases |steps|
  {
    if steps == [] then later == s
    else Enabled(s, steps[0], handlers) && Leads(Next(s, steps[0], handlers), steps[1..], handlers, later)
  }

  lemma LeadsFirst(s: State, step: Step, steps: seq<Step>, handlers: Handlers, later: State)
    requires Enabled(s, step, handlers) && Leads(Next(s, step, handlers), steps, handlers, later)
    ensures Leads(s, [step] + steps, handlers, later)
  {
    assert ([step] + steps)[1..] == steps;
  }

  // the worker runs the handler of its first claim, if there is one, and writes what became of it
  lemma HeadInOneGo(s: State, w: WorkerId, handlers: Handlers, throws: bool) returns (steps: seq<Step>, later: State)
    requires Busy(s, w) && s.workers[w].stage == Ready && s.workers[w].queue[0].id in s.rows
    requires s.rows[s.workers[w].queue[0].id].attempts == s.workers[w].queue[0].attempts
    requires s.rows[s.workers[w].queue[0].id].eventType == s.workers[w].queue[0].eventType
    ensures Leads(s, steps, handlers, later) && later.now == s.now
    ensures var id := s.workers[w].queue[0].id;
            && later.rows == s.rows[id := Settle(s.rows[id], OutcomeOf(s.rows[id], handlers, throws), s.now)]
            && later.workers == s.workers[w := Working(s.workers[w].queue[1..], Ready)]
  {
    hide Settle;
    var id := s.workers[w].queue[0].id;
    assert s.rows[id].(attempts := s.workers[w].queue[0].attempts) == s.rows[id];
    var ran := s;
    if handlers(s.rows[id].eventType) {
      ran := Next(s, RunHandler(w, !throws), handlers);
    }
    later := Next(ran, SettleHead(w), handlers);
    assert later.workers == s.workers[w := Working(s.workers[w].queue[1..], Ready)];
    assert Leads(later, [], handlers, later);
    LeadsFirst(ran, SettleHead(w), [], handlers, later);
    steps := [SettleHead(w)];
    if handlers(s.rows[id].eventType) {
      LeadsFirst(s, RunHandler(w, !throws), steps, handlers, later);
      steps := [RunHandler(w, !throws)] + steps;
    }
  }

  lemma {:induction false} LeadsOn(s: State, first: seq<Step>, middle: State, rest: seq<Step>, handlers: Handlers,
                                   later: State)
    requires Leads(s, first, handlers, middle) && Leads(middle, rest, handlers, later)
    ensures Leads(s, first + rest, handlers, later)
    decreases |first|
  {
    hide Next, Enabled;
    if first == [] {
      assert first + rest == rest;
    } else {
      LeadsOn(Next(s, first[0], handlers), first[1..], middle, rest, handlers, later);
      assert (first + rest)[1..] == first[1..] + rest;
    }
  }

  // the worker settles the claims it has left, from the i-th on
  lemma {:induction false} QueueInOneGo(s: State, w: WorkerId, handlers: Handlers, throws: Id -> bool, before: Table,
                                        claimed: seq<Id>, i: nat) returns (steps: seq<Step>, later: State)
    requires forall k | 0 <= k < |claimed| :: claimed[k] in before
    requires forall k, l | 0 <= k < l < |claimed| :: claimed[k] != claimed[l]
    requires i <= |claimed| && SettledUpTo(before, s.rows, claimed, i, handlers, throws, _ => s.now)
    requires |Claims(before, claimed)| == |claimed|
    requires w in s.workers && s.workers[w] == Working(Claims(before, claimed)[i..], Ready)
    ensures Leads(s, steps, handlers, later) && later.workers == s.workers[w := Working([], Ready)]
    ensures SettledUpTo(before, later.rows, claimed, |claimed|, handlers, throws, _ => s.now)
    decreases |claimed| - i
  {
    hide Settle, SettledUpTo, Leads, Claims;
    if i == |claimed| {
      steps, later := [], s;
      StandsStill(s, w, handlers);
    } else {
      ClaimsShape(before, claimed);
      var id := claimed[i];
      SettleNext(before, s.rows, claimed, i, handlers, throws, _ => s.now);
      assert s.workers[w].queue[0] == Claims(before, claimed)[i];
      RowOfClaim(before, s.rows, claimed, i, handlers, throws, s.now);
      var first, middle := HeadInOneGo(s, w, handlers, throws(id));
      var rest, end := QueueInOneGo(middle, w, handlers, throws, before, claimed, i + 1);
      LeadsOn(s, first, middle, rest, handlers, end);
      steps, later := first + rest, end;
    }
  }

  lemma StandsStill(s: State, w: WorkerId, handlers: Handlers)
    requires w in s.workers && s.workers[w] == Working([], Ready)
    ensures Leads(s, [], handlers, s) && s.workers == s.workers[w := Working([], Ready)]
  {
  }

  lemma RowOfClaim(before: Table, rows: Table, claimed: seq<Id>, i: nat, handlers: Handlers, throws: Id -> bool,
                   now: int)
    requires forall k | 0 <= k < |claimed| :: claimed[k] in before
    requires i < |claimed| && SettledUpTo(before, rows, claimed, i, handlers, throws, _ => now)
    ensures claimed[i] in rows && rows[claimed[i]] == before[claimed[i]].(status := Processing)
  {
    hide Settle;
  }

  // the claim: select and mark
  lemma ClaimInOneGo(s: State, w: WorkerId, limit: nat, claimed: seq<Id>, handlers: Handlers, throws: Id -> bool)
    returns (locked: State, marked: State)
    requires w !in s.workers && (forall v | v in s.workers :: !s.workers[v].Locking?)
    requires Picks(s.rows, s.now, limit, claimed)
    ensures Enabled(s, SelectForUpdate(w, limit, claimed), handlers)
            && locked == Next(s, SelectForUpdate(w, limit, claimed), handlers)
    ensures Enabled(locked, CommitClaim(w), handlers) && marked == Next(locked, CommitClaim(w), handlers)
    ensures marked.workers == s.workers[w := Working(Claims(s.rows, claimed), Ready)] && marked.now == s.now
    ensures SettledUpTo(s.rows, marked.rows, claimed, 0, handlers, throws, _ => s.now)
  {
    hide Settle, Claims;
    assert Unlocked(s) == s.rows;
    locked := Next(s, SelectForUpdate(w, limit, claimed), handlers);
    marked := Next(locked, CommitClaim(w), handlers);
  }

  /** A batch whose statements come one after the other, with no row locked, is the method: the worker can claim what
      the query picks, settle every claim and finish, and the rows are then those the method leaves. */
  lemma BatchInOneGo(s: State, w: WorkerId, limit: nat, claimed: seq<Id>, handlers: Handlers, throws: Id -> bool)
    returns (steps: seq<Step>, later: State)
    requires w !in s.workers && (forall v | v in s.workers :: !s.workers[v].Locking?)
    requires Picks(s.rows, s.now, limit, claimed)
    ensures Leads(s, [SelectForUpdate(w, limit, claimed), CommitClaim(w)] + steps + [FinishBatch(w)], handlers, later)
    ensures SettledUpTo(s.rows, later.rows, claimed, |claimed|, handlers, throws, _ => s.now)
    ensures later.workers == s.workers
  {
    hide Settle, Leads, SettledUpTo, Claims, Unlocked, IsLocked;
    ClaimsShape(s.rows, claimed);
    var select, commit, finish := SelectForUpdate(w, limit, claimed), CommitClaim(w), FinishBatch(w);
    var locked, marked := ClaimInOneGo(s, w, limit, claimed, handlers, throws);
    assert Claims(s.rows, claimed)[0..] == Claims(s.rows, claimed);
    var settled: State;
    steps, settled := QueueInOneGo(marked, w, handlers, throws, s.rows, claimed, 0);
    later := Next(settled, finish, handlers);
    assert later.workers == s.workers;
    FinishLeads(settled, w, handlers);
    hide Picks, Next, Enabled;
    LeadsOn(marked, steps, settled, [finish], handlers, later);
    LeadsFirst(locked, commit, steps + [finish], handlers, later);
    LeadsFirst(s, select, [commit] + (steps + [finish]), handlers, later);
    assert [select] + ([commit] + (steps + [finish])) == [select, commit] + steps + [finish];
  }

  /** A row can be enqueued exactly under a key that is free, and it is then the row that the method inserts. */
  lemma EnqueueInOneGo(s: State, id: Id, eventType: EventType, handlers: Handlers)
    ensures Enabled(s, EnqueueRow(id, eventType), handlers) <==> id !in s.rows
    ensures id !in s.rows ==>
              var s' := Next(s, EnqueueRow(id, eventType), handlers);
              && s'.rows == s.rows[id := s'.rows[id]] && s'.rows[id].eventType == eventType
              && s'.rows[id].status == Pending && s'.rows[id].attempts == 0 && s'.rows[id].nextRetryAt == None
              && s'.rows[id].createdAt == s.now
  {
    hide Picks;
  }

  lemma FinishLeads(s: State, w: WorkerId, handlers: Handlers)
    requires Enabled(s, FinishBatch(w), handlers)
    ensures Leads(s, [FinishBatch(w)], handlers, Next(s, FinishBatch(w), handlers))
  {
    var later := Next(s, FinishBatch(w), handlers);
    assert Leads(later, [], handlers, later);
    LeadsFirst(s, FinishBatch(w), [], handlers, later);
  }
}
