/** The token provider of one process over whole runs: any number of calls, interleaved at every await, against a
    server that accepts each refresh token once. */
module TokenRuns {
  import opened Tables
  import opened Tokens

  type CallId = nat

  datatype Call = Reading | HasRead(stored: Token) | Awaiting(promise: PromiseId) | Done(result: Option<Token>)

  datatype Phase =
    | Sent                                                       // the request is on its way
    | Accepted(accessToken: nat, refreshToken: nat, expiresIn: nat) // the server has rotated the token
    | Writing(next: Token)
    | Written(next: Token)
    | Refused
    | Reread(reread: Token)
    | Settled(result: Option<Token>)                             // before the callback of finally
    | Finished(result: Option<Token>)

  datatype Refresh = Refresh(began: Token, phase: Phase)

  // `valid` is the one refresh token the server still accepts; `stored` remembers which ones the store ever held,
  // and `lost` whether a rotated token never made it there
  datatype State = State(
    now: int, fields: Fields, calls: map<CallId, Call>, refreshes: map<PromiseId, Refresh>,
    store: Token, valid: nat, stored: set<nat>, lost: bool)

  datatype Step =
    | TickStep(later: int)
    | CallStep(c: CallId)
    | ReadStep(c: CallId)
    | FailReadStep(c: CallId)
    | ResolveStep(c: CallId, promise: PromiseId)
    | AcceptStep(p: PromiseId, accessToken: nat, refreshToken: nat, expiresIn: nat)
    | RefuseStep(p: PromiseId)
    | DropStep(p: PromiseId)                    // the request fails before it reaches the server
    | LoseResponseStep(p: PromiseId, refreshToken: nat) // the server rotates, but its answer is lost or unreadable
    | ParseStep(p: PromiseId)
    | WriteStep(p: PromiseId)
    | FailWriteStep(p: PromiseId)
    | CacheStep(p: PromiseId)
    | RereadStep(p: PromiseId)
    | FailRereadStep(p: PromiseId)
    | SettleStep(p: PromiseId)
    | FinallyStep(p: PromiseId)
    | ReturnStep(c: CallId)

  // the server hands out new texts, accepts the valid refresh token only, and may refuse for any reason
  predicate Enabled(st: State, step: Step) {
    match step
    case TickStep(later) => st.now <= later
    case CallStep(c) => c !in st.calls
    case ReadStep(c) => c in st.calls && st.calls[c].Reading?
    case FailReadStep(c) => c in st.calls && st.calls[c].Reading?
    case ResolveStep(c, promise) => c in st.calls && st.calls[c].HasRead? && promise !in st.refreshes
    case AcceptStep(p, _, refreshToken, _) =>
      p in st.refreshes && st.refreshes[p].phase.Sent? && st.refreshes[p].began.refreshToken == st.valid
      && refreshToken !in st.stored && refreshToken != st.valid
    case RefuseStep(p) => p in st.refreshes && st.refreshes[p].phase.Sent?
    case DropStep(p) => p in st.refreshes && st.refreshes[p].phase.Sent?
    case LoseResponseStep(p, refreshToken) =>
      p in st.refreshes && st.refreshes[p].phase.Sent? && st.refreshes[p].began.refreshToken == st.valid
      && refreshToken !in st.stored && refreshToken != st.valid
    case ParseStep(p) => p in st.refreshes && st.refreshes[p].phase.Accepted?
    case WriteStep(p) => p in st.refreshes && st.refreshes[p].phase.Writing?
    case FailWriteStep(p) => p in st.refreshes && st.refreshes[p].phase.Writing?
    case CacheStep(p) => p in st.refreshes && st.refreshes[p].phase.Written?
    case RereadStep(p) => p in st.refreshes && st.refreshes[p].phase.Refused?
    case FailRereadStep(p) => p in st.refreshes && st.refreshes[p].phase.Refused?
    case SettleStep(p) => p in st.refreshes && st.refreshes[p].phase.Reread?
    case FinallyStep(p) => p in st.refreshes && st.refreshes[p].phase.Settled?
    case ReturnStep(c) =>
      c in st.calls && st.calls[c].Awaiting? && st.calls[c].promise in st.refreshes
        && st.refreshes[st.calls[c].promise].phase.Finished?
  }

  function InPhaseOf(st: State, p: PromiseId, phase: Phase): State
    requires p in st.refreshes
  {
    st.(refreshes := st.refreshes[p := st.refreshes[p].(phase := phase)])
  }

  function Apply(st: State, step: Step): State
    requires Enabled(st, step)
  {
    match step
    case TickStep(later) => st.(now := later)
    case CallStep(c) =>
      var answer := Answer(st.fields, st.now);
      st.(calls := st.calls[c := if answer.Some? then Done(answer) else Reading])
    case ReadStep(c) => st.(calls := st.calls[c := HasRead(st.store)])
    case FailReadStep(c) => st.(calls := st.calls[c := Done(None)])
    case ResolveStep(c, promise) =>
      var read := st.calls[c].stored;
      var after := st.(fields := AfterResolve(st.fields, read, st.now, promise));
      (match Resolve(st.fields, read, st.now)
       case Return(token) => after.(calls := st.calls[c := Done(Some(token))])
       case StartRefresh =>
         after.(calls := st.calls[c := Awaiting(promise)], refreshes := st.refreshes[promise := Refresh(read, Sent)])
       case Join(other) => after.(calls := st.calls[c := Awaiting(other)]))
    case AcceptStep(p, accessToken, refreshToken, expiresIn) =>
      InPhaseOf(st, p, Accepted(accessToken, refreshToken, expiresIn)).(valid := refreshToken)
    case RefuseStep(p) => InPhaseOf(st, p, Refused)
    case DropStep(p) => InPhaseOf(st, p, Settled(None))
    case LoseResponseStep(p, refreshToken) => InPhaseOf(st, p, Settled(None)).(valid := refreshToken, lost := true)
    case ParseStep(p) =>
      var a := st.refreshes[p].phase;
      InPhaseOf(st, p, Writing(NextToken(a.accessToken, a.refreshToken, a.expiresIn, st.now)))
    case WriteStep(p) =>
      var next := st.refreshes[p].phase.next;
      InPhaseOf(st, p, Written(next)).(store := next, stored := st.stored + {next.refreshToken})
    case FailWriteStep(p) => InPhaseOf(st, p, Settled(None)).(lost := true)
    case CacheStep(p) =>
      var next := st.refreshes[p].phase.next;
      InPhaseOf(st, p, Settled(Some(next))).(fields := Caching(st.fields, next))
    case RereadStep(p) => InPhaseOf(st, p, Reread(st.store))
    case FailRereadStep(p) => InPhaseOf(st, p, Settled(None))
    case SettleStep(p) =>
      var reread := st.refreshes[p].phase.reread;
      InPhaseOf(st, p, Settled(RereadResult(reread, st.now))).(fields := AfterRefusal(st.fields, reread, st.now))
    case FinallyStep(p) => InPhaseOf(st, p, Finished(st.refreshes[p].phase.result)).(fields := Cleared(st.fields))
    case ReturnStep(c) => st.(calls := st.calls[c := Done(st.refreshes[st.calls[c].promise].phase.result)])
  }

  ghost predicate IsRun(states: seq<State>, steps: seq<Step>) {
    && |states| == |steps| + 1
    && states[0].fields == Fields(None, None) && states[0].calls == map[] && states[0].refreshes == map[]
    && states[0].valid == states[0].store.refreshToken && states[0].stored == {states[0].valid} && !states[0].lost
    && forall i | 0 <= i < |steps| :: Enabled(states[i], steps[i]) && states[i + 1] == Apply(states[i], steps[i])
  }

  // ---------------------------------------------------------------- what every reachable state keeps

  // the field names the one refresh that is not finished
  predicate SingleFlight(fields: Fields, refreshes: map<PromiseId, Refresh>) {
    && (forall p | p in refreshes && !refreshes[p].phase.Finished? :: fields.refreshInFlight == Some(p))
    && (fields.refreshInFlight.Some? ==>
          fields.refreshInFlight.value in refreshes && !refreshes[fields.refreshInFlight.value].phase.Finished?)
  }

  predicate AwaitedExist(calls: map<CallId, Call>, refreshes: map<PromiseId, Refresh>) {
    forall c | c in calls && calls[c].Awaiting? :: calls[c].promise in refreshes
  }

  // every token in use once came from the store
  predicate FromStore(st: State) {
    && st.store.refreshToken in st.stored
    && (forall c | c in st.calls && st.calls[c].HasRead? :: st.calls[c].stored.refreshToken in st.stored)
    && (forall p | p in st.refreshes :: st.refreshes[p].began.refreshToken in st.stored)
  }

  // a refresh holds the rotated token between the server's answer and the write
  predicate Holds(refresh: Refresh, valid: nat) {
    match refresh.phase
    case Accepted(_, refreshToken, _) => refreshToken == valid
    case Writing(next) => next.refreshToken == valid
    case _ => false
  }

  predicate Holding(st: State) {
    st.fields.refreshInFlight.Some? && st.fields.refreshInFlight.value in st.refreshes
    && Holds(st.refreshes[st.fields.refreshInFlight.value], st.valid)
  }

  // the valid refresh token is in the store, on its way there, or lost
  predicate Accounted(st: State) {
    && (forall p | p in st.refreshes && (st.refreshes[p].phase.Accepted? || st.refreshes[p].phase.Writing?) ::
          Holds(st.refreshes[p], st.valid) && !st.lost)
    && (if st.lost || Holding(st) then st.valid !in st.stored else st.store.refreshToken == st.valid)
  }

  predicate RereadIsStore(st: State) {
    forall p | p in st.refreshes && st.refreshes[p].phase.Reread? :: st.refreshes[p].phase.reread == st.store
  }

  predicate IsStored(token: Option<Token>, stored: set<nat>) {
    token.Some? ==> token.value.refreshToken in stored
  }

  predicate PhaseStored(phase: Phase, stored: set<nat>) {
    match phase
    case Written(next) => next.refreshToken in stored
    case Reread(reread) => reread.refreshToken in stored
    case Settled(result) => IsStored(result, stored)
    case Finished(result) => IsStored(result, stored)
    case _ => true
  }

  // what is cached, returned or about to be returned has been stored first
  predicate ResultsStored(st: State) {
    && IsStored(st.fields.cachedToken, st.stored)
    && (forall c | c in st.calls && st.calls[c].Done? :: IsStored(st.calls[c].result, st.stored))
    && (forall p | p in st.refreshes :: PhaseStored(st.refreshes[p].phase, st.stored))
  }

  predicate Inv(st: State) {
    && SingleFlight(st.fields, st.refreshes) && AwaitedExist(st.calls, st.refreshes) && FromStore(st)
    && Accounted(st) && RereadIsStore(st) && ResultsStored(st)
  }

  // ---------------------------------------------------------------- each step: of a call or of a refresh

  predicate OfCall(step: Step) {
    step.TickStep? || step.CallStep? || step.ReadStep? || step.FailReadStep? || step.ReturnStep?
  }

  predicate OfRefresh(step: Step) {
    !OfCall(step) && !step.ResolveStep?
  }

  lemma SingleFlightByCall(st: State, step: Step)
    requires SingleFlight(st.fields, st.refreshes) && AwaitedExist(st.calls, st.refreshes)
    requires Enabled(st, step) && OfCall(step)
    ensures SingleFlight(Apply(st, step).fields, Apply(st, step).refreshes)
    ensures AwaitedExist(Apply(st, step).calls, Apply(st, step).refreshes)
  {
    hide IsFresh;
  }

  lemma SingleFlightByResolve(st: State, step: Step)
    requires SingleFlight(st.fields, st.refreshes) && AwaitedExist(st.calls, st.refreshes)
    requires Enabled(st, step) && step.ResolveStep?
    ensures SingleFlight(Apply(st, step).fields, Apply(st, step).refreshes)
    ensures AwaitedExist(Apply(st, step).calls, Apply(st, step).refreshes)
  {
    hide IsFresh;
  }

  lemma SingleFlightByRefresh(st: State, step: Step)
    requires SingleFlight(st.fields, st.refreshes) && AwaitedExist(st.calls, st.refreshes)
    requires Enabled(st, step) && OfRefresh(step)
    ensures SingleFlight(Apply(st, step).fields, Apply(st, step).refreshes)
    ensures AwaitedExist(Apply(st, step).calls, Apply(st, step).refreshes)
  {
    hide IsFresh;
  }

  lemma SingleFlightKept(st: State, step: Step)
    requires SingleFlight(st.fields, st.refreshes) && AwaitedExist(st.calls, st.refreshes)
    requires Enabled(st, step)
    ensures SingleFlight(Apply(st, step).fields, Apply(st, step).refreshes)
    ensures AwaitedExist(Apply(st, step).calls, Apply(st, step).refreshes)
  {
    hide Apply, Enabled, SingleFlight, AwaitedExist, FromStore, Accounted, RereadIsStore, ResultsStored;
    if OfCall(step) {
      SingleFlightByCall(st, step);
    } else if step.ResolveStep? {
      SingleFlightByResolve(st, step);
    } else {
      SingleFlightByRefresh(st, step);
    }
  }

  lemma FromStoreByCall(st: State, step: Step)
    requires FromStore(st)
    requires Enabled(st, step) && OfCall(step)
    ensures FromStore(Apply(st, step))
  {
    hide IsFresh;
  }

  lemma FromStoreByResolve(st: State, step: Step)
    requires FromStore(st)
    requires Enabled(st, step) && step.ResolveStep?
    ensures FromStore(Apply(st, step))
  {
    hide IsFresh;
  }

  lemma FromStoreByRefresh(st: State, step: Step)
    requires FromStore(st)
    requires Enabled(st, step) && OfRefresh(step)
    ensures FromStore(Apply(st, step))
  {
    hide IsFresh;
  }

  lemma FromStoreKept(st: State, step: Step)
    requires FromStore(st)
    requires Enabled(st, step)
    ensures FromStore(Apply(st, step))
  {
    hide Apply, Enabled, SingleFlight, AwaitedExist, FromStore, Accounted, RereadIsStore, ResultsStored;
    if OfCall(step) {
      FromStoreByCall(st, step);
    } else if step.ResolveStep? {
      FromStoreByResolve(st, step);
    } else {
      FromStoreByRefresh(st, step);
    }
  }

  lemma AccountedByCall(st: State, step: Step)
    requires SingleFlight(st.fields, st.refreshes) && FromStore(st) && Accounted(st)
    requires Enabled(st, step) && OfCall(step)
    ensures Accounted(Apply(st, step))
  {
    hide IsFresh;
  }

  lemma AccountedByResolve(st: State, step: Step)
    requires SingleFlight(st.fields, st.refreshes) && FromStore(st) && Accounted(st)
    requires Enabled(st, step) && step.ResolveStep?
    ensures Accounted(Apply(st, step))
  {
    hide IsFresh;
  }

  // the steps on the way of a rotated token into the store
  predicate OfRotation(step: Step) {
    step.AcceptStep? || step.LoseResponseStep? || step.ParseStep? || step.WriteStep? || step.FailWriteStep?
  }

  lemma AccountedByRotation(st: State, step: Step)
    requires SingleFlight(st.fields, st.refreshes) && FromStore(st) && Accounted(st)
    requires Enabled(st, step) && OfRotation(step)
    ensures Accounted(Apply(st, step))
  {
    hide IsFresh;
  }

  lemma AccountedByOthers(st: State, step: Step)
    requires SingleFlight(st.fields, st.refreshes) && FromStore(st) && Accounted(st)
    requires Enabled(st, step) && OfRefresh(step) && !OfRotation(step)
    ensures Accounted(Apply(st, step))
  {
    hide IsFresh;
  }

  lemma AccountedKept(st: State, step: Step)
    requires SingleFlight(st.fields, st.refreshes) && FromStore(st) && Accounted(st)
    requires Enabled(st, step)
    ensures Accounted(Apply(st, step))
  {
    hide Apply, Enabled, SingleFlight, AwaitedExist, FromStore, Accounted, RereadIsStore, ResultsStored;
    if OfCall(step) {
      AccountedByCall(st, step);
    } else if step.ResolveStep? {
      AccountedByResolve(st, step);
    } else {
      if OfRotation(step) {
        AccountedByRotation(st, step);
      } else {
        AccountedByOthers(st, step);
      }
    }
  }

  lemma RereadByCall(st: State, step: Step)
    requires SingleFlight(st.fields, st.refreshes) && RereadIsStore(st)
    requires Enabled(st, step) && OfCall(step)
    ensures RereadIsStore(Apply(st, step))
  {
    hide IsFresh;
  }

  lemma RereadByResolve(st: State, step: Step)
    requires SingleFlight(st.fields, st.refreshes) && RereadIsStore(st)
    requires Enabled(st, step) && step.ResolveStep?
    ensures RereadIsStore(Apply(st, step))
  {
    hide IsFresh;
  }

  lemma RereadByRefresh(st: State, step: Step)
    requires SingleFlight(st.fields, st.refreshes) && RereadIsStore(st)
    requires Enabled(st, step) && OfRefresh(step)
    ensures RereadIsStore(Apply(st, step))
  {
    hide IsFresh;
  }

  lemma RereadKept(st: State, step: Step)
    requires SingleFlight(st.fields, st.refreshes) && RereadIsStore(st)
    requires Enabled(st, step)
    ensures RereadIsStore(Apply(st, step))
  {
    hide Apply, Enabled, SingleFlight, AwaitedExist, FromStore, Accounted, RereadIsStore, ResultsStored;
    if OfCall(step) {
      RereadByCall(st, step);
    } else if step.ResolveStep? {
      RereadByResolve(st, step);
    } else {
      RereadByRefresh(st, step);
    }
  }

  lemma ResultsByCall(st: State, step: Step)
    requires FromStore(st) && ResultsStored(st)
    requires Enabled(st, step) && OfCall(step)
    ensures ResultsStored(Apply(st, step))
  {
    hide IsFresh;
  }

  lemma ResultsByResolve(st: State, step: Step)
    requires FromStore(st) && ResultsStored(st)
    requires Enabled(st, step) && step.ResolveStep?
    ensures ResultsStored(Apply(st, step))
  {
    hide IsFresh;
  }

  lemma ResultsByRefresh(st: State, step: Step)
    requires FromStore(st) && ResultsStored(st)
    requires Enabled(st, step) && OfRefresh(step)
    ensures ResultsStored(Apply(st, step))
  {
    hide IsFresh;
  }

  lemma ResultsKept(st: State, step: Step)
    requires FromStore(st) && ResultsStored(st)
    requires Enabled(st, step)
    ensures ResultsStored(Apply(st, step))
  {
    hide Apply, Enabled, SingleFlight, AwaitedExist, FromStore, Accounted, RereadIsStore, ResultsStored;
    if OfCall(step) {
      ResultsByCall(st, step);
    } else if step.ResolveStep? {
      ResultsByResolve(st, step);
    } else {
      ResultsByRefresh(st, step);
    }
  }

  lemma StepKeepsInv(st: State, step: Step)
    requires Inv(st) && Enabled(st, step)
    ensures Inv(Apply(st, step))
  {
    SingleFlightKept(st, step);
    FromStoreKept(st, step);
    AccountedKept(st, step);
    RereadKept(st, step);
    ResultsKept(st, step);
    hide *;
  }

  lemma {:induction false} RunKeepsInv(states: seq<State>, steps: seq<Step>, i: nat)
    requires IsRun(states, steps) && i < |states|
    ensures Inv(states[i])
  {
    hide Apply, Enabled;
    if i > 0 {
      hide Inv;
      RunKeepsInv(states, steps, i - 1);
      StepKeepsInv(states[i - 1], steps[i - 1]);
    }
  }

  // ---------------------------------------------------------------- main results

  /** At every await at most one refresh is outstanding. */
  lemma AtMostOneRefresh(states: seq<State>, steps: seq<Step>, i: nat, p: PromiseId, q: PromiseId)
    requires IsRun(states, steps) && i < |states| && p in states[i].refreshes && q in states[i].refreshes
    requires !states[i].refreshes[p].phase.Finished? && !states[i].refreshes[q].phase.Finished?
    ensures p == q && states[i].fields.refreshInFlight == Some(p)
  {
    RunKeepsInv(states, steps, i);
  }

  /** Between refreshes the store holds the refresh token that the server accepts exactly when no rotated token
      has been lost on its way there. */
  lemma StoreIsCurrentIff(states: seq<State>, steps: seq<Step>, i: nat)
    requires IsRun(states, steps) && i < |states| && states[i].fields.refreshInFlight.None?
    ensures states[i].store.refreshToken == states[i].valid <==> !states[i].lost
  {
    RunKeepsInv(states, steps, i);
  }

  /** A refused refresh finds the token that the server accepts in the store exactly when none has been lost; so a
      refresh begun with a token that was already rotated finds another one, and returns and caches it if it is
      still fresh. */
  lemma RotatedTokenIsFound(states: seq<State>, steps: seq<Step>, i: nat, p: PromiseId)
    requires IsRun(states, steps) && i < |steps| && steps[i] == SettleStep(p)
    ensures p in states[i].refreshes && states[i].refreshes[p].phase == Reread(states[i].store)
    ensures states[i].store.refreshToken == states[i].valid <==> !states[i].lost
    ensures p in states[i + 1].refreshes && (FreshFor(states[i].store, states[i].now) ==>
              states[i + 1].refreshes[p].phase == Settled(Some(states[i].store))
                && states[i + 1].fields.cachedToken == Some(states[i].store))
  {
    RunKeepsInv(states, steps, i);
    assert Enabled(states[i], steps[i]) && states[i + 1] == Apply(states[i], steps[i]);
    assert states[i].fields.refreshInFlight == Some(p);
  }

  /** No call is answered with a token, and none is cached, whose refresh token is not safely in the store. */
  lemma AnswersAreStored(states: seq<State>, steps: seq<Step>, i: nat, c: CallId)
    requires IsRun(states, steps) && i < |states| && c in states[i].calls && states[i].calls[c].Done?
    ensures states[i].calls[c].result.Some? ==> states[i].calls[c].result.value.refreshToken in states[i].stored
    ensures states[i].fields.cachedToken.Some? ==> states[i].fields.cachedToken.value.refreshToken in states[i].stored
  {
    RunKeepsInv(states, steps, i);
  }

  // ---------------------------------------------------------------- how long the answers are good for

  /** A call is answered from the cache or from what it read of the store exactly when that token has more than 60
      seconds left. */
  lemma DirectAnswersAreFresh(states: seq<State>, steps: seq<Step>, i: nat, c: CallId)
    requires IsRun(states, steps) && i < |steps|
    requires steps[i] == CallStep(c) || (steps[i].ResolveStep? && steps[i].c == c)
    ensures c in states[i + 1].calls
    ensures steps[i].ResolveStep? ==> c in states[i].calls && states[i].calls[c].HasRead?
    ensures var held := if steps[i].CallStep? then states[i].fields.cachedToken else Some(states[i].calls[c].stored);
            if held.Some? && held.value.expiresAt.Some? && held.value.expiresAt.value - states[i].now > 60
            then states[i + 1].calls[c] == Done(held)
            else !states[i + 1].calls[c].Done?
  {
    assert Enabled(states[i], steps[i]) && states[i + 1] == Apply(states[i], steps[i]);
  }

  // a new token is the server's answer, good for as long from then as the server says
  ghost predicate Renewed(states: seq<State>, steps: seq<Step>, k: nat, token: Token) {
    && k < |steps| <= |states| && steps[k].ParseStep? && steps[k].p in states[k].refreshes
    && states[k].refreshes[steps[k].p].phase.Accepted?
    && var a := states[k].refreshes[steps[k].p].phase;
       && token.accessToken == a.accessToken && token.refreshToken == a.refreshToken
       && token.expiresAt == Some(states[k].now + a.expiresIn)
  }

  // the step checks that the token has more than 60 seconds left
  ghost predicate CheckedFresh(states: seq<State>, steps: seq<Step>, k: nat, token: Token) {
    k < |steps| <= |states| && (steps[k].CallStep? || steps[k].ResolveStep? || steps[k].SettleStep?)
    && token.expiresAt.Some? && token.expiresAt.value - states[k].now > 60
  }

  ghost predicate IsGood(states: seq<State>, steps: seq<Step>, i: nat, token: Token) {
    exists k :: 0 <= k < i && (Renewed(states, steps, k, token) || CheckedFresh(states, steps, k, token))
  }

  // the token that a refresh is about to write or to return
  predicate Carries(phase: Phase, token: Token) {
    match phase
    case Writing(next) => next == token
    case Written(next) => next == token
    case Settled(result) => result == Some(token)
    case Finished(result) => result == Some(token)
    case _ => false
  }

  ghost predicate AnswersAreGood(states: seq<State>, steps: seq<Step>, i: nat)
    requires i < |states|
  {
    && (forall c, token | c in states[i].calls && states[i].calls[c] == Done(Some(token)) ::
          IsGood(states, steps, i, token))
    && (forall p, token | p in states[i].refreshes && Carries(states[i].refreshes[p].phase, token) ::
          IsGood(states, steps, i, token))
  }

  // where a token that a call is answered with comes from
  lemma AnswerStep(st: State, step: Step, c: CallId, token: Token)
    requires Enabled(st, step) && c in Apply(st, step).calls && Apply(st, step).calls[c] == Done(Some(token))
    ensures || (c in st.calls && st.calls[c] == Done(Some(token)))
            || ((step.CallStep? || step.ResolveStep?) && token.expiresAt.Some? && token.expiresAt.value - st.now > 60)
            || exists p :: p in st.refreshes && Carries(st.refreshes[p].phase, token)
  {
    if step.ReturnStep? && step.c == c {
      assert Carries(st.refreshes[st.calls[c].promise].phase, token);
    }
  }

  // where a token that a refresh carries comes from
  lemma CarryStep(st: State, step: Step, p: PromiseId, token: Token)
    requires Enabled(st, step) && p in Apply(st, step).refreshes && Carries(Apply(st, step).refreshes[p].phase, token)
    ensures || (p in st.refreshes && Carries(st.refreshes[p].phase, token))
            || (step.SettleStep? && token.expiresAt.Some? && token.expiresAt.value - st.now > 60)
            || (step == ParseStep(p) && p in st.refreshes && st.refreshes[p].phase.Accepted?
                && token.accessToken == st.refreshes[p].phase.accessToken
                && token.refreshToken == st.refreshes[p].phase.refreshToken
                && token.expiresAt == Some(st.now + st.refreshes[p].phase.expiresIn))
  {
  }

  lemma GoodLater(states: seq<State>, steps: seq<Step>, i: nat, token: Token)
    requires IsGood(states, steps, i, token)
    ensures IsGood(states, steps, i + 1, token)
  {
    hide Renewed, CheckedFresh;
  }

  lemma {:induction false} AnswersStayGood(states: seq<State>, steps: seq<Step>, i: nat)
    requires IsRun(states, steps) && i < |states|
    ensures AnswersAreGood(states, steps, i)
  {
    hide Apply, Enabled, IsGood, Carries;
    if i > 0 {
      var k := i - 1;
      AnswersStayGood(states, steps, k);
      forall c, token | c in states[i].calls && states[i].calls[c] == Done(Some(token))
        ensures IsGood(states, steps, i, token)
      {
        AnswerStep(states[k], steps[k], c, token);
        GoodNow(states, steps, k, token);
      }
      forall p, token | p in states[i].refreshes && Carries(states[i].refreshes[p].phase, token)
        ensures IsGood(states, steps, i, token)
      {
        CarryStep(states[k], steps[k], p, token);
        GoodNow(states, steps, k, token);
      }
    }
  }

  lemma GoodNow(states: seq<State>, steps: seq<Step>, k: nat, token: Token)
    requires k < |steps| <= |states|
    ensures IsGood(states, steps, k, token) || CheckedFresh(states, steps, k, token) || Renewed(states, steps, k, token)
            ==> IsGood(states, steps, k + 1, token)
  {
    hide Renewed, CheckedFresh;
  }

  /** A call is only ever answered with a token that had more than 60 seconds left when it was last looked at, or with
      the very token that the server gave for a refresh, dated from when its answer was read. */
  lemma AnswersAreFreshOrNew(states: seq<State>, steps: seq<Step>, i: nat, c: CallId) returns (k: nat)
    requires IsRun(states, steps) && i < |states| && c in states[i].calls && states[i].calls[c].Done?
    requires states[i].calls[c].result.Some?
    ensures k < i && k < |steps|
    ensures Renewed(states, steps, k, states[i].calls[c].result.value)
            || CheckedFresh(states, steps, k, states[i].calls[c].result.value)
  {
    AnswersStayGood(states, steps, i);
    hide Renewed, CheckedFresh;
    var token := states[i].calls[c].result.value;
    assert IsGood(states, steps, i, token);
    k :| 0 <= k < i && (Renewed(states, steps, k, token) || CheckedFresh(states, steps, k, token));
  }

  lemma LostStays(st: State, step: Step)
    requires Inv(st) && Enabled(st, step) && st.lost
    ensures Apply(st, step).lost && Apply(st, step).valid == st.valid
  {
  }

  /** Once a rotated token is lost, the server never rotates again: every later refresh is refused. */
  lemma {:induction false} LostIsForever(states: seq<State>, steps: seq<Step>, i: nat, j: nat)
    requires IsRun(states, steps) && i <= j < |states| && states[i].lost
    ensures states[j].lost && states[j].valid == states[i].valid
    decreases j - i
  {
    hide Apply, Inv;
    if i < j {
      LostIsForever(states, steps, i, j - 1);
      RunKeepsInv(states, steps, j - 1);
      LostStays(states[j - 1], steps[j - 1]);
    }
  }

  // ---------------------------------------------------------------- one refresh with nothing in between

  // the steps one after the other, each possible where it is taken
  ghost predicate Leads(st: State, steps: seq<Step>, later: State)
    decreases |steps|
  {
    if steps == [] then later == st else Enabled(st, steps[0]) && Leads(Apply(st, steps[0]), steps[1..], later)
  }

  lemma LeadsFirst(st: State, step: Step, steps: seq<Step>, later: State)
    requires Enabled(st, step) && Leads(Apply(st, step), steps, later)
    ensures Leads(st, [step] + steps, later)
  {
    assert ([step] + steps)[1..] == steps;
  }

  // from the write of the store to the caller
  lemma WrittenReaches(st: State, c: CallId, p: PromiseId) returns (later: State)
    requires c in st.calls && st.calls[c] == Awaiting(p) && p in st.refreshes && st.refreshes[p].phase.Written?
    ensures Leads(st, [CacheStep(p), FinallyStep(p), ReturnStep(c)], later)
    ensures var token := st.refreshes[p].phase.next;
            && later.store == st.store && later.fields == Fields(Some(token), None)
            && c in later.calls && later.calls[c] == Done(Some(token)) && later.valid == st.valid
  {
    var cached := Apply(st, CacheStep(p));
    var cleared := Apply(cached, FinallyStep(p));
    later := Apply(cleared, ReturnStep(c));
    assert Leads(later, [], later);
    hide Apply, Enabled, Leads;
    LeadsFirst(cleared, ReturnStep(c), [], later);
    LeadsFirst(cached, FinallyStep(p), [ReturnStep(c)], later);
    LeadsFirst(st, CacheStep(p), [FinallyStep(p), ReturnStep(c)], later);
  }

  // from the server's answer to the caller
  lemma AcceptedReaches(st: State, c: CallId, p: PromiseId) returns (later: State)
    requires c in st.calls && st.calls[c] == Awaiting(p) && p in st.refreshes && st.refreshes[p].phase.Accepted?
    ensures Leads(st, [ParseStep(p), WriteStep(p), CacheStep(p), FinallyStep(p), ReturnStep(c)], later)
    ensures var a := st.refreshes[p].phase;
            var token := Token(a.accessToken, a.refreshToken, Some(st.now + a.expiresIn));
            && later.store == token && later.fields == Fields(Some(token), None)
            && c in later.calls && later.calls[c] == Done(Some(token)) && later.valid == st.valid
  {
    var parsed := Apply(st, ParseStep(p));
    var written := Apply(parsed, WriteStep(p));
    later := WrittenReaches(written, c, p);
    hide Apply, Enabled, Leads;
    LeadsFirst(parsed, WriteStep(p), [CacheStep(p), FinallyStep(p), ReturnStep(c)], later);
    LeadsFirst(st, ParseStep(p), [WriteStep(p), CacheStep(p), FinallyStep(p), ReturnStep(c)], later);
  }

  // from the read of a stale store, by a call that finds no refresh in flight
  lemma ReadReaches(st: State, c: CallId, p: PromiseId, accept: Step) returns (later: State)
    requires c in st.calls && st.calls[c] == HasRead(st.store) && p !in st.refreshes
    requires st.fields.refreshInFlight == None && !FreshFor(st.store, st.now) && st.store.refreshToken == st.valid
    requires accept.AcceptStep? && accept.p == p && accept.refreshToken !in st.stored && accept.refreshToken != st.valid
    ensures Leads(st, [ResolveStep(c, p), accept, ParseStep(p), WriteStep(p), CacheStep(p), FinallyStep(p),
                       ReturnStep(c)], later)
    ensures var token := Token(accept.accessToken, accept.refreshToken, Some(st.now + accept.expiresIn));
            && later.store == token && later.fields == Fields(Some(token), None)
            && c in later.calls && later.calls[c] == Done(Some(token)) && later.valid == accept.refreshToken
  {
    var resolved := Apply(st, ResolveStep(c, p));
    var accepted := Apply(resolved, accept);
    later := AcceptedReaches(accepted, c, p);
    hide Apply, Enabled, Leads, IsFresh;
    var rest := [ParseStep(p), WriteStep(p), CacheStep(p), FinallyStep(p), ReturnStep(c)];
    LeadsFirst(resolved, accept, rest, later);
    LeadsFirst(st, ResolveStep(c, p), [accept] + rest, later);
    assert [ResolveStep(c, p)] + ([accept] + rest)
        == [ResolveStep(c, p), accept, ParseStep(p), WriteStep(p), CacheStep(p), FinallyStep(p), ReturnStep(c)];
  }

  /** A call that finds no fresh token and no refresh in flight can start one, and if the server accepts and nothing
      comes in between, the new token is stored, cached and answered, and the field is free again. */
  lemma RefreshInOneGo(st: State, c: CallId, p: PromiseId, accessToken: nat, refreshToken: nat, expiresIn: nat)
    returns (later: State)
    requires c !in st.calls && p !in st.refreshes && st.fields.refreshInFlight == None
    requires st.fields.cachedToken.Some? ==> !FreshFor(st.fields.cachedToken.value, st.now)
    requires !FreshFor(st.store, st.now) && st.store.refreshToken == st.valid
    requires refreshToken !in st.stored && refreshToken != st.valid
    ensures Leads(st, [CallStep(c), ReadStep(c), ResolveStep(c, p), AcceptStep(p, accessToken, refreshToken, expiresIn),
                       ParseStep(p), WriteStep(p), CacheStep(p), FinallyStep(p), ReturnStep(c)], later)
    ensures var token := Token(accessToken, refreshToken, Some(st.now + expiresIn));
            && later.store == token && later.fields == Fields(Some(token), None)
            && c in later.calls && later.calls[c] == Done(Some(token)) && later.valid == refreshToken
  {
    var called := Apply(st, CallStep(c));
    var read := Apply(called, ReadStep(c));
    var accept := AcceptStep(p, accessToken, refreshToken, expiresIn);
    later := ReadReaches(read, c, p, accept);
    hide Apply, Enabled, Leads, IsFresh;
    var rest := [ResolveStep(c, p), accept, ParseStep(p), WriteStep(p), CacheStep(p), FinallyStep(p), ReturnStep(c)];
    LeadsFirst(called, ReadStep(c), rest, later);
    LeadsFirst(st, CallStep(c), [ReadStep(c)] + rest, later);
    assert [CallStep(c)] + ([ReadStep(c)] + rest)
        == [CallStep(c), ReadStep(c), ResolveStep(c, p), accept, ParseStep(p), WriteStep(p), CacheStep(p),
            FinallyStep(p), ReturnStep(c)];
  }
}
