/**
 Many requests over one credential chain.

 Every request walks through stages; one step of a request is what it does
 between two points where another request, or another thread, can get in: an
 awaited call, the probe lock, or one use of the state mutex.  Awaited calls
 may answer anything at any time, and a request may be dropped while it waits.
 */
module ChainProtocol {
  import opened Common
  import opened Credentials

  datatype Stage =
    | Begun
    | SawNoFallback                              // read the active fallback: none
    | AskingPrimary
    | ClearingExpiry(token: string)
    | WaitingForLock(cause: Error)
    | Rechecking(cause: Error)                   // holds the probe lock from here ...
    | AskingTakeover(cause: Error)
    | Spacing(cause: Error)
    | Probing(cause: Error)
    | Switching(source: Source, token: string)   // ... to here
    | Expiring(cause: Error)
    | AskingFallback(source: Source)
    | Recording(at: Time, error: CredentialExpired)
    | Done(result: Outcome)
    | Dropped

  datatype System = System(chain: ChainState, lock: Option<nat>, clock: Time, requests: map<nat, Stage>)

  datatype Event =
    | Tick(passed: nat)
    | Begin(id: nat)
    | ReadActive(id: nat)
    | ReadExpiry(id: nat)
    | PrimaryAnswers(id: nat, answer: Answer, offersFallback: bool)
    | ClearExpiry(id: nat)
    | TakeLock(id: nat)
    | RecheckActive(id: nat)
    | TakeoverAnswers(id: nat, answer: Answer)
    | CheckSpacing(id: nat)
    | ProbeEnds(id: nat, outcome: Option<(Source, string)>)
    | Switch(id: nat)
    | Stamp(id: nat)
    | FallbackAnswers(id: nat, answer: Answer)
    | Record(id: nat)
    | Drop(id: nat)

  const START := System(FRESH, None, 0, map[])

  predicate HoldsLock(stage: Stage) {
    stage.Rechecking? || stage.AskingTakeover? || stage.Spacing? || stage.Probing? || stage.Switching?
  }

  /** Where a request can be dropped: before it runs, and at every await. */
  predicate Awaits(stage: Stage) {
    stage.Begun? || stage.AskingPrimary? || stage.WaitingForLock? || stage.AskingTakeover? ||
    stage.Probing? || stage.AskingFallback?
  }

  predicate Finished(stage: Stage) {
    stage.Done? || stage.Dropped?
  }

  function Move(s: System, id: nat, stage: Stage): System {
    s.(requests := s.requests[id := stage])
  }

  /** Leave the critical section of the probe lock. */
  function Leave(s: System, id: nat, stage: Stage): System {
    Move(s, id, stage).(lock := None)
  }

  /** What one event does; `None` when it cannot happen in `s`. */
  function Step(c: Settings, s: System, e: Event): Option<System> {
    if e.Tick? then Some(s.(clock := s.clock + e.passed))
    else if e.Begin? then (if e.id in s.requests then None else Some(Move(s, e.id, Begun)))
    else if e.id in s.requests then RequestStep(c, s, e, s.requests[e.id])
    else None
  }

  function RequestStep(c: Settings, s: System, e: Event, stage: Stage): Option<System>
    requires !e.Tick? && !e.Begin?
  {
    match e
    case ReadActive(id) =>
      if !stage.Begun? then None
      else Some(Move(s, id, if s.chain.active.Some? then AskingFallback(s.chain.active.value) else SawNoFallback))
    case ReadExpiry(id) =>
      if !stage.SawNoFallback? then None
      else
        var recent := RecentExpiry(s.chain, c.recheckInterval, s.clock);
        Some(Move(s, id, if recent.Some? then Done(Err(AsError(recent.value))) else AskingPrimary))
    case PrimaryAnswers(id, answer, offersFallback) =>
      if !stage.AskingPrimary? then None
      else
        Some(Move(s, id,
                  if answer.Granted? then ClearingExpiry(answer.token)
                  else if !IsPermanent(answer.err, answer.reauth) then Done(Err(answer.err))
                  else if offersFallback then WaitingForLock(answer.err)
                  else Expiring(answer.err)))
    case ClearExpiry(id) =>
      if !stage.ClearingExpiry? then None
      else Some(Move(s, id, Done(Ok(stage.token))).(chain := s.chain.(expired := None)))
    case TakeLock(id) =>
      if !stage.WaitingForLock? || s.lock.Some? then None
      else Some(Move(s, id, Rechecking(stage.cause)).(lock := Some(id)))
    case RecheckActive(id) =>
      if !stage.Rechecking? then None
      else Some(Move(s, id, if s.chain.active.Some? then AskingTakeover(stage.cause) else Spacing(stage.cause)))
    case TakeoverAnswers(id, answer) =>
      if !stage.AskingTakeover? then None
      else Some(Leave(s, id, if answer.Granted? then Done(Ok(answer.token)) else Expiring(stage.cause)))
    case CheckSpacing(id) =>
      if !stage.Spacing? then None
      else if ProbedTooRecently(s.chain, c.recheckInterval, s.clock) then Some(Leave(s, id, Expiring(stage.cause)))
      else Some(Move(s, id, Probing(stage.cause)).(chain := s.chain.(lastProbe := Some(s.clock))))
    case ProbeEnds(id, outcome) =>
      if !stage.Probing? then None
      else if outcome.None? then Some(Leave(s, id, Expiring(stage.cause)))
      else Some(Move(s, id, Switching(outcome.value.0, outcome.value.1)))
    case Switch(id) =>
      if !stage.Switching? then None
      else Some(Leave(s, id, Done(Ok(stage.token))).(
                chain := s.chain.(active := Some(stage.source), expired := None)))
    case Stamp(id) =>
      if !stage.Expiring? then None
      else Some(Move(s, id, Recording(s.clock, ExpiredError(c.provider, stage.cause, c.primary))))
    case FallbackAnswers(id, answer) =>
      if !stage.AskingFallback? then None
      else
        Some(Move(s, id,
                  if answer.Granted? then Done(Ok(answer.token))
                  else if !IsPermanent(answer.err, answer.reauth) then Done(Err(answer.err))
                  else Recording(s.clock, ExpiredError(c.provider, answer.err, stage.source))))
    case Record(id) =>
      if !stage.Recording? then None
      else Some(Move(s, id, Done(Err(AsError(stage.error)))).(
                chain := s.chain.(expired := Some(Expiry(stage.at, stage.error)))))
    case Drop(id) =>
      if !Awaits(stage) then None
      else Some(if HoldsLock(stage) then Leave(s, id, Dropped) else Move(s, id, Dropped))
  }

  // ---------------------------------------------------------------- runs

  /** A run: the states passed through and the events between them. */
  datatype Run = Run(states: seq<System>, events: seq<Event>)

  ghost predicate IsRun(c: Settings, r: Run) {
    |r.states| == |r.events| + 1 && r.states[0] == START &&
    forall k :: 0 <= k < |r.events| ==> Step(c, r.states[k], r.events[k]) == Some(r.states[k + 1])
  }

  /** Event `k` starts a fallback probe. */
  predicate StartsProbe(r: Run, k: nat)
    requires k < |r.events| < |r.states|
  {
    var e := r.events[k];
    e.CheckSpacing? && e.id in r.states[k + 1].requests && r.states[k + 1].requests[e.id].Probing?
  }

  /** The probe lock is held by exactly the request inside the critical section. */
  ghost predicate LockAgrees(s: System) {
    && (s.lock.Some? ==> s.lock.value in s.requests)
    && (forall id <- s.requests :: HoldsLock(s.requests[id]) <==> s.lock == Some(id))
  }

  /** Once a fallback is in charge nobody is about to probe or to switch. */
  ghost predicate ProbingIsOver(s: System) {
    s.chain.active.Some? ==> forall id <- s.requests ::
      !s.requests[id].Spacing? && !s.requests[id].Probing? && !s.requests[id].Switching?
  }

  /** No recorded time lies in the future. */
  ghost predicate TimesArePast(s: System) {
    && (s.chain.lastProbe.Some? ==> s.chain.lastProbe.value <= s.clock)
    && (s.chain.expired.Some? ==> s.chain.expired.value.at <= s.clock)
    && (forall id <- s.requests :: s.requests[id].Recording? ==> s.requests[id].at <= s.clock)
  }

  ghost predicate Invariant(s: System) {
    LockAgrees(s) && ProbingIsOver(s) && TimesArePast(s)
  }

  lemma StepKeepsLock(c: Settings, s: System, e: Event, s': System)
    requires LockAgrees(s) && Step(c, s, e) == Some(s')
    ensures LockAgrees(s')
  {
  }

  lemma StepKeepsProbingOver(c: Settings, s: System, e: Event, s': System)
    requires LockAgrees(s) && ProbingIsOver(s) && Step(c, s, e) == Some(s')
    ensures ProbingIsOver(s')
  {
  }

  lemma StepKeepsTimesPast(c: Settings, s: System, e: Event, s': System)
    requires TimesArePast(s) && Step(c, s, e) == Some(s')
    ensures TimesArePast(s')
  {
  }

  lemma {:induction false} RunKeepsInvariant(c: Settings, r: Run, k: nat)
    requires IsRun(c, r) && k < |r.states|
    ensures Invariant(r.states[k])
  {
    if k > 0 {
      RunKeepsInvariant(c, r, k - 1);
      var s, e, s' := r.states[k - 1], r.events[k - 1], r.states[k];
      StepKeepsLock(c, s, e, s');
      StepKeepsProbingOver(c, s, e, s');
      StepKeepsTimesPast(c, s, e, s');
    }
  }

  /** An event touches the stage of its own request only. */
  lemma StepTouchesOneRequest(c: Settings, s: System, e: Event, s': System, id: nat)
    requires Step(c, s, e) == Some(s')
    requires id in s.requests && (e.Tick? || e.id != id)
    ensures id in s'.requests && s'.requests[id] == s.requests[id]
  {
  }

  /** What one event keeps: time and the last probe only move forward, and a fallback stays. */
  lemma StepMovesForward(c: Settings, s: System, e: Event, s': System)
    requires Invariant(s) && Step(c, s, e) == Some(s')
    ensures s.clock <= s'.clock && s.requests.Keys <= s'.requests.Keys
    ensures s.chain.active.Some? ==> s'.chain.active == s.chain.active
    ensures s.chain.lastProbe.Some? ==>
              s'.chain.lastProbe.Some? && s.chain.lastProbe.value <= s'.chain.lastProbe.value
  {
  }

  lemma {:induction false} RunMovesForward(c: Settings, r: Run, i: nat, j: nat)
    requires IsRun(c, r) && i <= j < |r.states|
    ensures r.states[i].clock <= r.states[j].clock
    ensures r.states[i].requests.Keys <= r.states[j].requests.Keys
    ensures r.states[i].chain.active.Some? ==> r.states[j].chain.active == r.states[i].chain.active
    ensures r.states[i].chain.lastProbe.Some? ==>
              r.states[j].chain.lastProbe.Some? &&
              r.states[i].chain.lastProbe.value <= r.states[j].chain.lastProbe.value
  {
    if i < j {
      RunMovesForward(c, r, i, j - 1);
      RunKeepsInvariant(c, r, j - 1);
      StepMovesForward(c, r.states[j - 1], r.events[j - 1], r.states[j]);
    }
  }

  // ---------------------------------------------------------------- probing and switching

  /** At most one fallback probe is in flight, however requests interleave. */
  lemma AtMostOneProbeInFlight(c: Settings, r: Run, k: nat, a: nat, b: nat)
    requires IsRun(c, r) && k < |r.states|
    requires a in r.states[k].requests && r.states[k].requests[a].Probing?
    requires b in r.states[k].requests && r.states[k].requests[b].Probing?
    ensures a == b
  {
    RunKeepsInvariant(c, r, k);
  }

  /** Any two probe starts are at least the recheck interval apart. */
  lemma ProbesAreSpaced(c: Settings, r: Run, i: nat, j: nat)
    requires IsRun(c, r) && i < j < |r.events|
    requires StartsProbe(r, i) && StartsProbe(r, j)
    ensures r.states[j].clock - r.states[i].clock >= c.recheckInterval
  {
    assert r.states[i + 1].chain.lastProbe == Some(r.states[i].clock) by {
      assert Step(c, r.states[i], r.events[i]) == Some(r.states[i + 1]);
    }
    RunMovesForward(c, r, i + 1, j);
    RunKeepsInvariant(c, r, j);
    assert Step(c, r.states[j], r.events[j]) == Some(r.states[j + 1]);
  }

  /** A fallback takes over at most once, stays in charge, and ends all probing. */
  lemma FallbackIsFinal(c: Settings, r: Run, i: nat, j: nat)
    requires IsRun(c, r) && i <= j < |r.events|
    requires r.states[i].chain.active.Some?
    ensures r.states[j + 1].chain.active == r.states[i].chain.active
    ensures !StartsProbe(r, j)
    ensures !r.events[j].Switch?
  {
    RunMovesForward(c, r, i, j);
    RunMovesForward(c, r, i, j + 1);
    RunKeepsInvariant(c, r, j);
    assert Step(c, r.states[j], r.events[j]) == Some(r.states[j + 1]);
  }

  // ---------------------------------------------------------------- when something is asked again

  /** In a run the memory of an expiry lasts for the recheck interval and no longer. */
  lemma AsksPrimaryIff(c: Settings, r: Run, k: nat)
    requires IsRun(c, r) && k < |r.events| && r.events[k].ReadExpiry?
    ensures var s, id := r.states[k], r.events[k].id;
            id in r.states[k + 1].requests &&
            (r.states[k + 1].requests[id].AskingPrimary? <==>
             s.chain.expired.None? || s.clock - s.chain.expired.value.at >= c.recheckInterval)
  {
    RunKeepsInvariant(c, r, k);
    assert Step(c, r.states[k], r.events[k]) == Some(r.states[k + 1]);
  }

  /** A request whose turn it is probes exactly when the last probe, if any, is an interval ago. */
  lemma ProbesIff(c: Settings, r: Run, k: nat)
    requires IsRun(c, r) && k < |r.events| && r.events[k].CheckSpacing?
    ensures var s := r.states[k];
            StartsProbe(r, k) <==>
            s.chain.lastProbe.None? || s.clock - s.chain.lastProbe.value >= c.recheckInterval
  {
    RunKeepsInvariant(c, r, k);
    assert Step(c, r.states[k], r.events[k]) == Some(r.states[k + 1]);
  }

  /** What the primary's answer leads to, by what the answer itself says. */
  lemma AnswerDecides(c: Settings, r: Run, k: nat)
    requires IsRun(c, r) && k < |r.events| && r.events[k].PrimaryAnswers?
    ensures var PrimaryAnswers(id, answer, offersFallback) := r.events[k];
            id in r.states[k + 1].requests &&
            var stage := r.states[k + 1].requests[id];
            if answer.Granted? then stage == ClearingExpiry(answer.token)
            else if answer.reauth || (exists i :: 0 <= i < |answer.err.layers| && answer.err.layers[i].Typed?) then
              stage == if offersFallback then WaitingForLock(answer.err) else Expiring(answer.err)
            else stage == Done(Err(answer.err))
  {
    assert Step(c, r.states[k], r.events[k]) == Some(r.states[k + 1]);
    if r.events[k].answer.Refused? {
      PermanentIff(r.events[k].answer.err, r.events[k].answer.reauth);
    }
  }

  // ---------------------------------------------------------------- which calls ask whom

  /** The stages of a call that found `source` in charge when it began. */
  predicate OnFallback(stage: Stage, source: Source) {
    stage.Begun? || stage == AskingFallback(source) || stage.Recording? || Finished(stage)
  }

  lemma StepKeepsOnFallback(c: Settings, s: System, e: Event, s': System, id: nat)
    requires Step(c, s, e) == Some(s')
    requires s.chain.active.Some? && id in s.requests && OnFallback(s.requests[id], s.chain.active.value)
    ensures id in s'.requests && OnFallback(s'.requests[id], s.chain.active.value)
  {
  }

  /** A call that begins after the switch asks the fallback in charge and never the primary. */
  lemma {:induction false} NoPrimaryAfterSwitch(c: Settings, r: Run, i: nat, j: nat)
    requires IsRun(c, r) && i < j < |r.states|
    requires r.events[i].Begin? && r.states[i].chain.active.Some?
    ensures r.events[i].id in r.states[j].requests
    ensures OnFallback(r.states[j].requests[r.events[i].id], r.states[i].chain.active.value)
    ensures !r.states[j].requests[r.events[i].id].AskingPrimary?
  {
    assert Step(c, r.states[i], r.events[i]) == Some(r.states[i + 1]);
    if i + 1 < j {
      NoPrimaryAfterSwitch(c, r, i, j - 1);
      RunMovesForward(c, r, i, j - 1);
      StepKeepsOnFallback(c, r.states[j - 1], r.events[j - 1], r.states[j], r.events[i].id);
    }
  }

  // ---------------------------------------------------------------- which tokens leave

  /** The token an event brings its request. */
  function TokenIn(e: Event): Option<string> {
    if (e.PrimaryAnswers? || e.FallbackAnswers? || e.TakeoverAnswers?) && e.answer.Granted? then Some(e.answer.token)
    else if e.ProbeEnds? && e.outcome.Some? then Some(e.outcome.value.1)
    else None
  }

  /** The token a request has in hand. */
  function TokenOf(stage: Stage): Option<string> {
    if stage.ClearingExpiry? || stage.Switching? then Some(stage.token)
    else if stage.Done? && stage.result.Ok? then Some(stage.result.value)
    else None
  }

  lemma StepKeepsToken(c: Settings, s: System, e: Event, s': System, id: nat)
    requires Step(c, s, e) == Some(s') && id in s.requests && TokenOf(s.requests[id]).Some?
    ensures id in s'.requests && TokenOf(s'.requests[id]) == TokenOf(s.requests[id])
  {
    if e.Tick? || e.id != id {
      StepTouchesOneRequest(c, s, e, s', id);
    }
  }

  lemma StepBringsToken(c: Settings, s: System, e: Event, s': System, id: nat)
    requires Step(c, s, e) == Some(s') && id in s'.requests && TokenOf(s'.requests[id]).Some?
    requires id in s.requests ==> TokenOf(s.requests[id]).None?
    ensures !e.Tick? && e.id == id && TokenIn(e) == TokenOf(s'.requests[id])
  {
    if id in s.requests && (e.Tick? || e.id != id) {
      StepTouchesOneRequest(c, s, e, s', id);
    }
  }

  /** Every token that leaves the chain was granted to that very request. */
  lemma {:induction false} TokensAreGranted(c: Settings, r: Run, k: nat, id: nat) returns (i: nat)
    requires IsRun(c, r) && k < |r.states|
    requires id in r.states[k].requests && TokenOf(r.states[k].requests[id]).Some?
    ensures i < k && !r.events[i].Tick? && r.events[i].id == id
    ensures TokenIn(r.events[i]) == TokenOf(r.states[k].requests[id])
  {
    var s, e, s' := r.states[k - 1], r.events[k - 1], r.states[k];
    assert Step(c, s, e) == Some(s');
    if id in s.requests && TokenOf(s.requests[id]).Some? {
      StepKeepsToken(c, s, e, s', id);
      i := TokensAreGranted(c, r, k - 1, id);
    } else {
      StepBringsToken(c, s, e, s', id);
      i := k - 1;
    }
  }

  lemma GrantIsTaken(c: Settings, s: System, e: Event, s': System)
    requires Step(c, s, e) == Some(s') && TokenIn(e).Some?
    ensures e.id in s'.requests && TokenOf(s'.requests[e.id]) == TokenIn(e)
  {
  }

  /** A token that a request was granted is what it ends with, unless it is still on its way. */
  lemma {:induction false} GrantsAreDelivered(c: Settings, r: Run, i: nat, j: nat)
    requires IsRun(c, r) && i < j < |r.states| && TokenIn(r.events[i]).Some?
    ensures r.events[i].id in r.states[j].requests
    ensures TokenOf(r.states[j].requests[r.events[i].id]) == TokenIn(r.events[i])
  {
    var s, e, s' := r.states[j - 1], r.events[j - 1], r.states[j];
    assert Step(c, s, e) == Some(s');
    if i == j - 1 {
      GrantIsTaken(c, s, e, s');
    } else {
      GrantsAreDelivered(c, r, i, j - 1);
      StepKeepsToken(c, s, e, s', r.events[i].id);
    }
  }

  // ---------------------------------------------------------------- which errors leave

  /** The permanent refusal behind an answer event, as the typed error the chain makes of it. */
  function Judgment(c: Settings, s: System, e: Event): Option<CredentialExpired> {
    if e.PrimaryAnswers? && e.answer.Refused? && IsPermanent(e.answer.err, e.answer.reauth) then
      Some(ExpiredError(c.provider, e.answer.err, c.primary))
    else if e.FallbackAnswers? && e.answer.Refused? && IsPermanent(e.answer.err, e.answer.reauth) &&
            e.id in s.requests && s.requests[e.id].AskingFallback? then
      Some(ExpiredError(c.provider, e.answer.err, s.requests[e.id].source))
    else None
  }

  /** `e` is an answer whose error its source judged transient. */
  predicate IsTransient(e: Event, err: Error) {
    (e.PrimaryAnswers? || e.FallbackAnswers?) && e.answer.Refused? && e.answer.err == err &&
    !IsPermanent(err, e.answer.reauth)
  }

  /** `e` answers a call from the memory of an expiry recorded less than the interval ago. */
  predicate FromMemory(c: Settings, s: System, e: Event, error: CredentialExpired) {
    e.ReadExpiry? && RecentExpiry(s.chain, c.recheckInterval, s.clock) == Some(error)
  }

  predicate HasCause(stage: Stage) {
    stage.WaitingForLock? || stage.Rechecking? || stage.AskingTakeover? || stage.Spacing? ||
    stage.Probing? || stage.Expiring?
  }

  predicate Failing(stage: Stage) {
    HasCause(stage) || stage.Recording? || (stage.Done? && stage.result.Err?)
  }

  /** Event `e`, met in state `s`, is what brought a request to the failing stage `stage`. */
  predicate Explains(c: Settings, s: System, e: Event, stage: Stage)
    requires Failing(stage)
  {
    if HasCause(stage) then
      e.PrimaryAnswers? && e.answer.Refused? && e.answer.err == stage.cause &&
      IsPermanent(e.answer.err, e.answer.reauth)
    else if stage.Recording? then Judgment(c, s, e) == Some(stage.error)
    else
      var err := stage.result.error;
      || IsTransient(e, err)
      || (FindExpired(err).Some? && err == AsError(FindExpired(err).value) &&
          (Judgment(c, s, e) == FindExpired(err) || FromMemory(c, s, e, FindExpired(err).value)))
  }

  /** What becomes of a failing stage that stays failing: the error it carries is only made typed, once. */
  predicate CarriesOn(c: Settings, stage: Stage, stage': Stage) {
    || stage' == stage
    || (HasCause(stage) && HasCause(stage') && stage'.cause == stage.cause)
    || (HasCause(stage) && stage'.Recording? && stage'.error == ExpiredError(c.provider, stage.cause, c.primary))
    || (stage.Recording? && stage' == Done(Err(AsError(stage.error))))
  }

  lemma StepCarriesOn(c: Settings, s: System, e: Event, s': System, id: nat)
    requires Step(c, s, e) == Some(s') && id in s.requests && id in s'.requests
    requires Failing(s.requests[id]) && Failing(s'.requests[id])
    ensures CarriesOn(c, s.requests[id], s'.requests[id])
  {
    if e.Tick? || e.id != id {
      StepTouchesOneRequest(c, s, e, s', id);
    }
  }

  /** A failing request stays explained by the event that brought it there. */
  lemma StageStaysExplained(c: Settings, s0: System, e0: Event, stage: Stage, stage': Stage)
    requires Failing(stage) && Failing(stage') && CarriesOn(c, stage, stage') && Explains(c, s0, e0, stage)
    ensures Explains(c, s0, e0, stage')
  {
  }

  /** A request that becomes failing is explained by its own event. */
  lemma StepExplains(c: Settings, s: System, e: Event, s': System, id: nat)
    requires Step(c, s, e) == Some(s') && id in s'.requests && Failing(s'.requests[id])
    requires id in s.requests ==> !Failing(s.requests[id])
    ensures !e.Tick? && e.id == id && Explains(c, s, e, s'.requests[id])
  {
    if id in s.requests && (e.Tick? || e.id != id) {
      StepTouchesOneRequest(c, s, e, s', id);
    }
  }

  /**
   Every error that leaves the chain goes back to one answer of one source, or
   to memory: it is typed exactly when that answer was judged permanent.
   */
  lemma {:induction false} ErrorsAreJudged(c: Settings, r: Run, k: nat, id: nat) returns (i: nat)
    requires IsRun(c, r) && k < |r.states|
    requires id in r.states[k].requests && Failing(r.states[k].requests[id])
    ensures i < k && !r.events[i].Tick? && r.events[i].id == id
    ensures Explains(c, r.states[i], r.events[i], r.states[k].requests[id])
    ensures r.states[k].requests[id].Done? ==>
              var err := r.states[k].requests[id].result.error;
              FindExpired(err).Some? <==> !IsTransient(r.events[i], err)
  {
    var s, e := r.states[k - 1], r.events[k - 1];
    i := k - 1;
    if id in s.requests && Failing(s.requests[id]) {
      i := ErrorsAreJudged(c, r, k - 1, id);
      StepCarriesOn(c, s, e, r.states[k], id);
      StageStaysExplained(c, r.states[i], r.events[i], s.requests[id], r.states[k].requests[id]);
    } else {
      StepExplains(c, s, e, r.states[k], id);
    }
  }

  /** A remembered expiry is the typed form of a permanent answer given earlier in the run. */
  lemma {:induction false} MemoryIsJudged(c: Settings, r: Run, k: nat) returns (i: nat)
    requires IsRun(c, r) && k < |r.states| && r.states[k].chain.expired.Some?
    ensures i < k && Judgment(c, r.states[i], r.events[i]) == Some(r.states[k].chain.expired.value.error)
  {
    var s, e := r.states[k - 1], r.events[k - 1];
    assert Step(c, s, e) == Some(r.states[k]);
    if e.Record? && Step(c, s, e).Some? {
      i := ErrorsAreJudged(c, r, k - 1, e.id);
    } else {
      i := MemoryIsJudged(c, r, k - 1);
    }
  }

  lemma {:induction false} FinishedForGood(c: Settings, r: Run, i: nat, j: nat, id: nat)
    requires IsRun(c, r) && i <= j < |r.states|
    requires id in r.states[i].requests && Finished(r.states[i].requests[id])
    ensures id in r.states[j].requests && r.states[j].requests[id] == r.states[i].requests[id]
  {
    if i < j {
      FinishedForGood(c, r, i, j - 1, id);
      assert Step(c, r.states[j - 1], r.events[j - 1]) == Some(r.states[j]);
    }
  }

  /** A transient refusal passes through untouched: no state changes, no probe, and the call is over. */
  lemma TransientErrorsAreInert(c: Settings, r: Run, i: nat, j: nat, err: Error)
    requires IsRun(c, r) && i < j < |r.states| && IsTransient(r.events[i], err)
    ensures r.states[i + 1].chain == r.states[i].chain && r.states[i + 1].lock == r.states[i].lock
    ensures r.events[i].id in r.states[j].requests
    ensures r.states[j].requests[r.events[i].id] == Done(Err(err)) && FindExpired(err).None?
  {
    assert Step(c, r.states[i], r.events[i]) == Some(r.states[i + 1]);
    FinishedForGood(c, r, i + 1, j, r.events[i].id);
  }

  // ---------------------------------------------------------------- an expiry after the switch

  /** A request past the check for a fallback, which may still hear from the primary. */
  predicate MayClear(stage: Stage) {
    stage.SawNoFallback? || stage.AskingPrimary? || stage.ClearingExpiry?
  }

  ghost predicate NobodyMayClear(s: System) {
    forall id <- s.requests :: !MayClear(s.requests[id])
  }

  /** A fallback is in charge, an expiry is recorded, and no call is left that could clear it. */
  ghost predicate ExpiryStands(s: System) {
    s.chain.active.Some? && s.chain.expired.Some? && NobodyMayClear(s)
  }

  lemma StepKeepsExpiry(c: Settings, s: System, e: Event, s': System)
    requires Invariant(s) && Step(c, s, e) == Some(s') && ExpiryStands(s)
    ensures ExpiryStands(s')
  {
  }

  lemma {:induction false} ExpiryIsKept(c: Settings, r: Run, i: nat, j: nat)
    requires IsRun(c, r) && i <= j < |r.states| && ExpiryStands(r.states[i])
    ensures ExpiryStands(r.states[j])
  {
    if i < j {
      ExpiryIsKept(c, r, i, j - 1);
      RunKeepsInvariant(c, r, j - 1);
      var s, e, s' := r.states[j - 1], r.events[j - 1], r.states[j];
      StepKeepsExpiry(c, s, e, s');
    }
  }

  /**
   Once a fallback is in charge and the calls that started before it are over,
   a recorded expiry is never cleared again, whatever the fallback answers.
   */
  lemma ExpirySticksAfterSwitch(c: Settings, r: Run, i: nat, j: nat)
    requires IsRun(c, r) && i <= j < |r.states|
    requires ExpiryStands(r.states[i])
    ensures ExpiryStands(r.states[j])
    ensures ReportOf(c, r.states[j].chain).verdict.status == Expired
  {
    ExpiryIsKept(c, r, i, j);
  }

  // ---------------------------------------------------------------- progress

  /** Some event of request `id` itself that its stage allows, when the lock does not keep it waiting. */
  function NextEvent(id: nat, stage: Stage): Event
    requires !Finished(stage)
  {
    match stage
    case Begun => ReadActive(id)
    case SawNoFallback => ReadExpiry(id)
    case AskingPrimary => PrimaryAnswers(id, Granted(""), false)
    case ClearingExpiry(_) => ClearExpiry(id)
    case WaitingForLock(_) => TakeLock(id)
    case Rechecking(_) => RecheckActive(id)
    case AskingTakeover(_) => TakeoverAnswers(id, Granted(""))
    case Spacing(_) => CheckSpacing(id)
    case Probing(_) => ProbeEnds(id, None)
    case Switching(_, _) => Switch(id)
    case Expiring(_) => Stamp(id)
    case AskingFallback(_) => FallbackAnswers(id, Granted(""))
    case Recording(_, _) => Record(id)
  }

  /** No request is stuck: it can move, or it waits for a lock whose holder can move. */
  lemma NoDeadlock(c: Settings, r: Run, k: nat, id: nat)
    requires IsRun(c, r) && k < |r.states|
    requires id in r.states[k].requests && !Finished(r.states[k].requests[id])
    ensures var s := r.states[k];
            var mover := if s.requests[id].WaitingForLock? && s.lock.Some? then s.lock.value else id;
            mover in s.requests && !Finished(s.requests[mover]) &&
            Step(c, s, NextEvent(mover, s.requests[mover])).Some?
  {
    RunKeepsInvariant(c, r, k);
  }
}
