/**
 Calls on one credential chain, one after another: what health then reports,
 how long a dead credential is left alone, and that such calls are runs of
 `ChainProtocol`.
 */
module SequentialCalls {
  import opened Common
  import opened Credentials
  import opened ChainProtocol

  /** One call as its caller and the world make it. */
  datatype Visit = Visit(force: bool, world: World)

  /** Every call's clock readings are in order, and calls do not overlap. */
  ghost predicate InOrder(visits: seq<Visit>) {
    && (forall i :: 0 <= i < |visits| ==> Ordered(visits[i].world))
    && (forall i, j :: 0 <= i < j < |visits| ==> visits[i].world.stampAt <= visits[j].world.askAt)
  }

  function CallOf(c: Settings, st: ChainState, v: Visit): Call {
    Fetched(c, st, v.force, v.world)
  }

  function StateAfter(c: Settings, st: ChainState, visits: seq<Visit>): ChainState
    decreases |visits|
  {
    if visits == [] then st else StateAfter(c, CallOf(c, st, visits[0]).state, visits[1..])
  }

  function CallAt(c: Settings, st: ChainState, visits: seq<Visit>, i: nat): Call
    requires i < |visits|
  {
    CallOf(c, StateAfter(c, st, visits[..i]), visits[i])
  }

  lemma {:induction false} StateAfterStep(c: Settings, st: ChainState, visits: seq<Visit>, i: nat)
    requires i < |visits|
    ensures StateAfter(c, st, visits[..i + 1]) == CallAt(c, st, visits, i).state
    decreases i
  {
    if i > 0 {
      var st', rest := CallOf(c, st, visits[0]).state, visits[1..];
      assert visits[..i + 1][1..] == rest[..i] && visits[..i][1..] == rest[..i - 1];
      StateAfterStep(c, st', rest, i - 1);
    } else {
      assert visits[..1][1..] == [];
    }
  }

  // ---------------------------------------------------------------- exactly what one call does

  /** The reply that the way of asking calls for. */
  function Reply(v: Visit, replies: Replies): Answer {
    if v.force then replies.refresh else replies.token
  }

  /** `since`, if ever, is at least the interval ago; a stamp in the future counts as now. */
  predicate LongAgo(c: Settings, since: Option<Time>, now: Time) {
    since.None? || c.recheckInterval == 0 || since.value + c.recheckInterval <= now
  }

  /** The primary is asked exactly when no fallback is in charge and no expiry was recorded within the interval. */
  lemma PrimaryIsAskedIff(c: Settings, st: ChainState, v: Visit)
    ensures CallOf(c, st, v).asked <==>
            st.active.None? && LongAgo(c, if st.expired.Some? then Some(st.expired.value.at) else None, v.world.askAt)
  {
  }

  /** A primary that is asked and grants answers the call, and no expiry is left: a new login is seen. */
  lemma LoginIsSeen(c: Settings, st: ChainState, v: Visit)
    requires CallOf(c, st, v).asked && Reply(v, v.world.primary).Granted?
    ensures CallOf(c, st, v).result == Ok(Reply(v, v.world.primary).token)
    ensures CallOf(c, st, v).state == ChainState(None, st.lastProbe, None)
  {
  }

  /** A plain error that its source does not judge passes through, and nothing changes. */
  lemma PlainErrorsPass(c: Settings, st: ChainState, v: Visit)
    requires var reply := if st.active.Some? then Reply(v, v.world.fallback) else Reply(v, v.world.primary);
             reply.Refused? && !reply.reauth && forall i :: 0 <= i < |reply.err.layers| ==> reply.err.layers[i].Plain?
    requires st.active.Some? || CallOf(c, st, v).asked
    ensures var reply := if st.active.Some? then Reply(v, v.world.fallback) else Reply(v, v.world.primary);
            CallOf(c, st, v).result == Err(reply.err) && CallOf(c, st, v).state == st && !CallOf(c, st, v).probed
  {
  }

  /** The refusal that makes a call look for a fallback. */
  predicate Dead(reply: Answer) {
    reply.Refused? && (reply.reauth || exists i :: 0 <= i < |reply.err.layers| && reply.err.layers[i].Typed?)
  }

  /** A probe is made exactly after a permanent refusal with a fallback on offer, the last probe long ago. */
  lemma FallbackIsProbedIff(c: Settings, st: ChainState, v: Visit)
    ensures CallOf(c, st, v).probed <==>
            CallOf(c, st, v).asked && Dead(Reply(v, v.world.primary)) && v.world.offersFallback &&
            LongAgo(c, st.lastProbe, v.world.probeAt)
    ensures CallOf(c, st, v).probed ==> CallOf(c, st, v).state.lastProbe == Some(v.world.probeAt)
    ensures !CallOf(c, st, v).probed ==> CallOf(c, st, v).state.lastProbe == st.lastProbe
  {
    if Reply(v, v.world.primary).Refused? {
      PermanentIff(Reply(v, v.world.primary).err, Reply(v, v.world.primary).reauth);
    }
  }

  /** A fallback takes over exactly when it answers a probe; that call succeeds with its token. */
  lemma FallbackTakesOverIff(c: Settings, st: ChainState, v: Visit)
    ensures CallOf(c, st, v).state.active ==
            if CallOf(c, st, v).probed && v.world.probe.Some? then Some(v.world.probe.value.0) else st.active
    ensures CallOf(c, st, v).probed && v.world.probe.Some? ==>
              CallOf(c, st, v).result == Ok(v.world.probe.value.1) && CallOf(c, st, v).state.expired == None
  {
  }

  /**
   An expiry is recorded, with the call's own time, exactly when the source in use
   is dead and no fallback takes over; the call fails with that same error.
   */
  lemma ExpiryIsRecordedIff(c: Settings, st: ChainState, v: Visit)
    ensures var call, w := CallOf(c, st, v), v.world;
            var source := if st.active.Some? then st.active.value else c.primary;
            var reply := Reply(v, if st.active.Some? then w.fallback else w.primary);
            (call.recorded <==>
               (st.active.Some? || call.asked) && Dead(reply) && !(call.probed && w.probe.Some?)) &&
            (call.recorded ==>
               var e := ExpiredError(c.provider, reply.err, source);
               call.state.expired == Some(Expiry(w.stampAt, e)) && call.result == Err(AsError(e)))
  {
    var reply := Reply(v, if st.active.Some? then v.world.fallback else v.world.primary);
    if reply.Refused? {
      PermanentIff(reply.err, reply.reauth);
    }
  }

  /** With a fallback in charge its reply decides, and the primary is left alone. */
  lemma FallbackAnswersCalls(c: Settings, st: ChainState, v: Visit)
    requires st.active.Some? && Reply(v, v.world.fallback).Granted?
    ensures CallOf(c, st, v) == Call(st, Ok(Reply(v, v.world.fallback).token), false, false, false)
  {
  }

  // ---------------------------------------------------------------- health

  /** Health names the source in use, and with an expiry on record its reason and what to do. */
  lemma ReportNamesSourceInUse(c: Settings, st: ChainState)
    ensures var r := ReportOf(c, st);
            r.provider == c.provider && r.source == c.configured && (r.fallbackActive <==> st.active.Some?) &&
            r.kind == (if r.fallbackActive then st.active.value.kind else c.primary.kind) &&
            (st.expired.Some? ==>
               r.verdict == Verdict(Expired, st.expired.value.error.reason, st.expired.value.error.remediation)) &&
            (st.expired.None? ==> r.verdict == if r.fallbackActive then st.active.value.verdict else c.primary.verdict)
  {
  }

  /** What a call learned about the primary credential. */
  datatype Fate = NotAsked | Lives | Dies | Unclear

  function FateOf(call: Call, v: Visit): Fate {
    if !call.asked then NotAsked
    else
      match Ask(v.world.primary, v.force)
      case Granted(_) => Lives
      case Refused(err, reauth) => if IsPermanent(err, reauth) then Dies else Unclear
  }

  /** The last primary fetch that was not transient died. */
  predicate LastFetchDied(c: Settings, visits: seq<Visit>)
    decreases |visits|
  {
    if visits == [] then false
    else
      var n := |visits| - 1;
      var fate := FateOf(CallAt(c, FRESH, visits, n), visits[n]);
      if fate == Dies then true
      else if fate == Lives then false
      else LastFetchDied(c, visits[..n])
  }

  lemma FateTellsExpiry(c: Settings, st: ChainState, v: Visit)
    requires CallOf(c, st, v).state.active.None?
    ensures var call := CallOf(c, st, v);
            st.active.None? &&
            (call.state.expired.Some? <==>
             FateOf(call, v) == Dies || (FateOf(call, v) != Lives && st.expired.Some?))
  {
  }

  /**
   Until a fallback takes over, health says expired exactly when the last decisive
   fetch died, or the primary itself says so.
   */
  lemma {:induction false} ReportTellsLastDeath(c: Settings, visits: seq<Visit>)
    requires StateAfter(c, FRESH, visits).active.None?
    ensures StateAfter(c, FRESH, visits).expired.Some? <==> LastFetchDied(c, visits)
    ensures ReportOf(c, StateAfter(c, FRESH, visits)).verdict.status == Expired <==>
            LastFetchDied(c, visits) || c.primary.verdict.status == Expired
    decreases |visits|
  {
    if visits != [] {
      var n := |visits| - 1;
      StateAfterStep(c, FRESH, visits, n);
      assert visits[..n + 1] == visits;
      FateTellsExpiry(c, StateAfter(c, FRESH, visits[..n]), visits[n]);
      ReportTellsLastDeath(c, visits[..n]);
    }
  }

  /**
   A successful call clears a recorded expiry exactly when no fallback is in
   charge: a fallback that recovers is still reported expired.
   */
  lemma SuccessClearsExpiryIffPrimary(c: Settings, st: ChainState, v: Visit)
    requires CallOf(c, st, v).result.Ok?
    ensures CallOf(c, st, v).state.expired.None? <==> st.active.None? || st.expired.None?
  {
  }

  lemma ThreeVisits(c: Settings, a: Visit, b: Visit, v: Visit)
    ensures StateAfter(c, FRESH, [a, b]) == CallOf(c, CallOf(c, FRESH, a).state, b).state
    ensures CallAt(c, FRESH, [a, b, v], 2) == CallOf(c, StateAfter(c, FRESH, [a, b]), v)
    ensures StateAfter(c, FRESH, [a, b, v]) == CallAt(c, FRESH, [a, b, v], 2).state
  {
    assert [a, b][..1] == [a] && [a, b][..2] == [a, b] && [a][..0] == [] && [a][..1] == [a];
    StateAfterStep(c, FRESH, [a], 0);
    StateAfterStep(c, FRESH, [a, b], 1);
    assert [a, b, v][..2] == [a, b] && [a, b, v][..3] == [a, b, v];
    StateAfterStep(c, FRESH, [a, b, v], 2);
  }

  /**
   From a fresh chain: the primary dies and a fallback takes over, the fallback
   dies once, and then it answers.  That call succeeds and health says expired,
   though neither credential does.
   */
  lemma RecoveredFallbackStaysExpired()
    ensures exists c: Settings, visits: seq<Visit> ::
              InOrder(visits) && |visits| == 3 && c.primary.verdict.status == Healthy &&
              CallAt(c, FRESH, visits, 2).result == Ok("token") &&
              StateAfter(c, FRESH, visits).active.Some? &&
              StateAfter(c, FRESH, visits).active.value.verdict.status == Healthy &&
              ReportOf(c, StateAfter(c, FRESH, visits)).verdict.status == Expired
  {
    var fine := Verdict(Healthy, "", "");
    var c := Settings("cloud", "default", Source("user", fine, "", ""), 60);
    var fallback := Source("workload", fine, "", "");
    var yes := Replies(Granted("token"), Granted("token"));
    var no := Replies(Refused(Error([]), true), Refused(Error([]), true));
    var a := Visit(false, World(100, no, yes, true, 100, Some((fallback, "token")), 100));
    var b := Visit(false, World(200, no, no, true, 200, None, 200));
    var v := Visit(false, World(300, no, yes, true, 300, None, 300));
    var visits := [a, b, v];
    ThreeVisits(c, a, b, v);
    assert FindExpired(Error([])).None? && Ask(no, false) == Refused(Error([]), true);
    var st := CallOf(c, FRESH, a).state;
    assert st == ChainState(Some(fallback), Some(100), None);
    var st' := CallOf(c, st, b).state;
    assert st'.active == Some(fallback) && st'.expired.Some?;
    assert CallOf(c, st', v) == Call(st', Ok("token"), false, false, false);
    assert InOrder(visits);
  }

  // ---------------------------------------------------------------- memory of a dead credential

  /** Within the interval a recorded expiry is the answer, forced or not, and nobody is asked. */
  lemma AnsweredFromMemory(c: Settings, st: ChainState, v: Visit)
    requires st.active.None? && st.expired.Some?
    requires st.expired.value.at <= v.world.askAt < st.expired.value.at + c.recheckInterval
    ensures CallOf(c, st, v) == Call(st, Err(AsError(st.expired.value.error)), false, false, false)
  {
  }

  /** The primary is shut off for the interval after `t`, or for good. */
  predicate ShutSince(st: ChainState, t: Time) {
    st.active.Some? || (st.expired.Some? && t <= st.expired.value.at)
  }

  lemma {:induction false} ShutUntilInterval(c: Settings, st: ChainState, visits: seq<Visit>, t: Time, j: nat)
    requires InOrder(visits) && j < |visits| && ShutSince(st, t) && t <= visits[0].world.askAt
    requires CallAt(c, st, visits, j).asked
    ensures visits[j].world.askAt >= t + c.recheckInterval
    decreases j
  {
    var first := CallOf(c, st, visits[0]);
    if j == 0 {
      assert visits[..0] == [];
    } else if !first.asked {
      var rest := visits[1..];
      assert visits[..j][1..] == rest[..j - 1];
      ShutUntilInterval(c, first.state, rest, t, j - 1);
    }
  }

  /** At least the interval passes between a recorded permanent failure and the next primary request. */
  lemma {:induction false} DeadCredentialIsLeftAlone(c: Settings, st: ChainState, visits: seq<Visit>, i: nat, j: nat)
    requires InOrder(visits) && i < j < |visits|
    requires CallAt(c, st, visits, i).recorded && CallAt(c, st, visits, j).asked
    ensures visits[j].world.askAt - visits[i].world.stampAt >= c.recheckInterval
    decreases i
  {
    var rest := visits[1..];
    var st' := CallOf(c, st, visits[0]).state;
    assert visits[..j][1..] == rest[..j - 1];
    if i == 0 {
      assert visits[..0] == [];
      ShutUntilInterval(c, st', rest, visits[0].world.stampAt, j - 1);
    } else {
      assert visits[..i][1..] == rest[..i - 1];
      DeadCredentialIsLeftAlone(c, st', rest, i - 1, j - 1);
    }
  }

  // ---------------------------------------------------------------- calls are runs

  function Exec(c: Settings, s: System, events: seq<Event>): Option<System>
    decreases |events|
  {
    if events == [] then Some(s)
    else
      var before := Exec(c, s, events[..|events| - 1]);
      if before.None? then None else Step(c, before.value, events[|events| - 1])
  }

  /** Some events of the protocol lead from `s` to `s'`. */
  ghost predicate Reaches(c: Settings, s: System, s': System) {
    exists events :: Exec(c, s, events) == Some(s')
  }

  /** The protocol state in which request `id` is at `stage` and every other request is as in `s`. */
  function At(s: System, id: nat, chain: ChainState, lock: Option<nat>, clock: Time, stage: Stage): System {
    System(chain, lock, clock, s.requests[id := stage])
  }

  lemma Go(c: Settings, s: System, s1: System, e: Event, s2: System)
    requires Reaches(c, s, s1) && Step(c, s1, e).Some?
    requires var t := Step(c, s1, e).value;
             t.chain == s2.chain && t.lock == s2.lock && t.clock == s2.clock && t.requests == s2.requests
    ensures Reaches(c, s, s2)
  {
    var events :| Exec(c, s, events) == Some(s1);
    var all := events + [e];
    assert all[..|all| - 1] == events;
    assert Exec(c, s, all) == Some(s2);
  }

  /** The clock moves on to `later`. */
  lemma Wait(c: Settings, s: System, s1: System, later: Time)
    requires Reaches(c, s, s1) && s1.clock <= later
    ensures Reaches(c, s, s1.(clock := later))
  {
    Go(c, s, s1, Tick(later - s1.clock), s1.(clock := later));
  }

  /** Stamping and recording the permanent failure of the primary. */
  lemma FailureIsRun(c: Settings, s: System, id: nat, chain: ChainState, clock: Time, cause: Error, at: Time)
    requires clock <= at && Reaches(c, s, At(s, id, chain, None, clock, Expiring(cause)))
    ensures var e := ExpiredError(c.provider, cause, c.primary);
            Reaches(c, s, At(s, id, chain.(expired := Some(Expiry(at, e))), None, at, Done(Err(AsError(e)))))
  {
    var e := ExpiredError(c.provider, cause, c.primary);
    var s0 := At(s, id, chain, None, clock, Expiring(cause));
    var s1 := At(s, id, chain, None, at, Recording(at, e));
    Wait(c, s, s0, at);
    Go(c, s, s0.(clock := at), Stamp(id), s1);
    Go(c, s, s1, Record(id), At(s, id, chain.(expired := Some(Expiry(at, e))), None, at, Done(Err(AsError(e)))));
  }

  /** The way of a permanently refused call into the critical section. */
  lemma LockIsRun(c: Settings, s: System, id: nat, clock: Time, err: Error, at: Time)
    requires clock <= at && s.chain.active.None?
    requires Reaches(c, s, At(s, id, s.chain, None, clock, WaitingForLock(err)))
    ensures Reaches(c, s, At(s, id, s.chain, Some(id), at, Spacing(err)))
  {
    var s1 := At(s, id, s.chain, Some(id), clock, Rechecking(err));
    var s2 := At(s, id, s.chain, Some(id), clock, Spacing(err));
    Go(c, s, At(s, id, s.chain, None, clock, WaitingForLock(err)), TakeLock(id), s1);
    Go(c, s, s1, RecheckActive(id), s2);
    Wait(c, s, s2, at);
  }

  /** The probe of a permanently refused call that is due. */
  lemma ProbeIsRun(c: Settings, s: System, id: nat, v: Visit, err: Error)
    requires Ordered(v.world)
    requires Reaches(c, s, At(s, id, s.chain, Some(id), v.world.probeAt, Spacing(err)))
    requires !ProbedTooRecently(s.chain, c.recheckInterval, v.world.probeAt)
    ensures var w, chain := v.world, s.chain.(lastProbe := Some(v.world.probeAt));
            if w.probe.None? then Reaches(c, s, At(s, id, chain, None, w.probeAt, Expiring(err)))
            else Reaches(c, s, At(s, id, chain.(active := Some(w.probe.value.0), expired := None), None,
                                  w.stampAt, Done(Ok(w.probe.value.1))))
  {
    var w, chain := v.world, s.chain.(lastProbe := Some(v.world.probeAt));
    var s1 := At(s, id, chain, Some(id), w.probeAt, Probing(err));
    Go(c, s, At(s, id, s.chain, Some(id), w.probeAt, Spacing(err)), CheckSpacing(id), s1);
    if w.probe.None? {
      Go(c, s, s1, ProbeEnds(id, None), At(s, id, chain, None, w.probeAt, Expiring(err)));
    } else {
      SwitchIsRun(c, s, id, chain, w.probeAt, err, w.probe.value, w.stampAt);
    }
  }

  /** A probe that answers, and the switch to the fallback that did. */
  lemma SwitchIsRun(c: Settings, s: System, id: nat, chain: ChainState, clock: Time, err: Error, found: (Source, string), later: Time)
    requires clock <= later && Reaches(c, s, At(s, id, chain, Some(id), clock, Probing(err)))
    ensures Reaches(c, s, At(s, id, chain.(active := Some(found.0), expired := None), None, later, Done(Ok(found.1))))
  {
    var s1 := At(s, id, chain, Some(id), clock, Switching(found.0, found.1));
    var s2 := At(s, id, chain.(active := Some(found.0), expired := None), None, clock, Done(Ok(found.1)));
    Go(c, s, At(s, id, chain, Some(id), clock, Probing(err)), ProbeEnds(id, Some(found)), s1);
    Go(c, s, s1, Switch(id), s2);
    Wait(c, s, s2, later);
  }

  /** The state one uninterrupted call leaves. */
  function Quiet(c: Settings, s: System, id: nat, v: Visit): System {
    At(s, id, CallOf(c, s.chain, v).state, None, v.world.stampAt, Done(CallOf(c, s.chain, v).result))
  }

  /** The part of a call after the primary's permanent refusal. */
  lemma RefusalIsRun(c: Settings, s: System, id: nat, v: Visit, err: Error)
    requires Ordered(v.world) && s.chain.active.None?
    requires CallOf(c, s.chain, v).asked && Ask(v.world.primary, v.force).Refused?
    requires err == Ask(v.world.primary, v.force).err && IsPermanent(err, Ask(v.world.primary, v.force).reauth)
    requires Reaches(c, s, At(s, id, s.chain, None, v.world.askAt, AskingPrimary))
    ensures Reaches(c, s, Quiet(c, s, id, v))
  {
    var w := v.world;
    var asking := At(s, id, s.chain, None, w.askAt, AskingPrimary);
    var answers := PrimaryAnswers(id, Ask(w.primary, v.force), w.offersFallback);
    if !w.offersFallback {
      Go(c, s, asking, answers, At(s, id, s.chain, None, w.askAt, Expiring(err)));
      FailureIsRun(c, s, id, s.chain, w.askAt, err, w.stampAt);
    } else {
      Go(c, s, asking, answers, At(s, id, s.chain, None, w.askAt, WaitingForLock(err)));
      LockIsRun(c, s, id, w.askAt, err, w.probeAt);
      if ProbedTooRecently(s.chain, c.recheckInterval, w.probeAt) {
        Go(c, s, At(s, id, s.chain, Some(id), w.probeAt, Spacing(err)), CheckSpacing(id),
           At(s, id, s.chain, None, w.probeAt, Expiring(err)));
        FailureIsRun(c, s, id, s.chain, w.probeAt, err, w.stampAt);
      } else {
        ProbeIsRun(c, s, id, v, err);
        if w.probe.None? {
          FailureIsRun(c, s, id, s.chain.(lastProbe := Some(w.probeAt)), w.probeAt, err, w.stampAt);
        }
      }
    }
  }

  /** The part of a call after the primary granted a token. */
  lemma GrantIsRun(c: Settings, s: System, id: nat, clock: Time, token: string, offers: bool, later: Time)
    requires clock <= later && Reaches(c, s, At(s, id, s.chain, None, clock, AskingPrimary))
    ensures Reaches(c, s, At(s, id, s.chain.(expired := None), None, later, Done(Ok(token))))
  {
    var s1 := At(s, id, s.chain, None, clock, ClearingExpiry(token));
    var done := At(s, id, s.chain.(expired := None), None, clock, Done(Ok(token)));
    Go(c, s, At(s, id, s.chain, None, clock, AskingPrimary), PrimaryAnswers(id, Granted(token), offers), s1);
    Go(c, s, s1, ClearExpiry(id), done);
    Wait(c, s, done, later);
  }

  /** The part of a call after the primary failed for now. */
  lemma TransientIsRun(c: Settings, s: System, id: nat, clock: Time, err: Error, offers: bool, later: Time)
    requires clock <= later && Reaches(c, s, At(s, id, s.chain, None, clock, AskingPrimary))
    requires !IsPermanent(err, false)
    ensures Reaches(c, s, At(s, id, s.chain, None, later, Done(Err(err))))
  {
    var done := At(s, id, s.chain, None, clock, Done(Err(err)));
    Go(c, s, At(s, id, s.chain, None, clock, AskingPrimary), PrimaryAnswers(id, Refused(err, false), offers), done);
    Wait(c, s, done, later);
  }

  /** The part of a call after it saw that no fallback is in charge. */
  lemma AskIsRun(c: Settings, s: System, id: nat, v: Visit)
    requires Ordered(v.world) && s.chain.active.None?
    requires Reaches(c, s, At(s, id, s.chain, None, v.world.askAt, SawNoFallback))
    ensures Reaches(c, s, Quiet(c, s, id, v))
  {
    var w, answer := v.world, Ask(v.world.primary, v.force);
    var recent := RecentExpiry(s.chain, c.recheckInterval, w.askAt);
    var s0 := At(s, id, s.chain, None, w.askAt, SawNoFallback);
    if recent.Some? {
      var done := At(s, id, s.chain, None, w.askAt, Done(Err(AsError(recent.value))));
      Go(c, s, s0, ReadExpiry(id), done);
      Wait(c, s, done, w.stampAt);
    } else {
      Go(c, s, s0, ReadExpiry(id), At(s, id, s.chain, None, w.askAt, AskingPrimary));
      if answer.Granted? {
        GrantIsRun(c, s, id, w.askAt, answer.token, w.offersFallback, w.stampAt);
      } else if IsPermanent(answer.err, answer.reauth) {
        RefusalIsRun(c, s, id, v, answer.err);
      } else {
        TransientIsRun(c, s, id, w.askAt, answer.err, w.offersFallback, w.stampAt);
      }
    }
  }

  /** One uninterrupted call is a run of the protocol with the same state and result. */
  lemma CallIsRun(c: Settings, s: System, id: nat, v: Visit)
    requires s.clock <= v.world.askAt && Ordered(v.world)
    requires s.lock.None? && id !in s.requests
    ensures Reaches(c, s, Quiet(c, s, id, v))
  {
    var w, call := v.world, CallOf(c, s.chain, v);
    var s0 := At(s, id, s.chain, None, s.clock, Begun);
    assert Exec(c, s, []) == Some(s);
    Go(c, s, s, Begin(id), s0);
    if s.chain.active.Some? {
      var source, answer := s.chain.active.value, Ask(w.fallback, v.force);
      var s1 := At(s, id, s.chain, None, s.clock, AskingFallback(source));
      Go(c, s, s0, ReadActive(id), s1);
      Wait(c, s, s1, w.stampAt);
      FallbackIsRun(c, s, id, v);
    } else {
      var s1 := At(s, id, s.chain, None, s.clock, SawNoFallback);
      Go(c, s, s0, ReadActive(id), s1);
      Wait(c, s, s1, w.askAt);
      AskIsRun(c, s, id, v);
    }
  }

  /** The part of a call that asks a fallback in charge. */
  lemma FallbackIsRun(c: Settings, s: System, id: nat, v: Visit)
    requires s.chain.active.Some?
    requires Reaches(c, s, At(s, id, s.chain, None, v.world.stampAt, AskingFallback(s.chain.active.value)))
    ensures Reaches(c, s, Quiet(c, s, id, v))
  {
    var now, source, answer := v.world.stampAt, s.chain.active.value, Ask(v.world.fallback, v.force);
    var s0 := At(s, id, s.chain, None, now, AskingFallback(source));
    if answer.Granted? {
      Go(c, s, s0, FallbackAnswers(id, answer), At(s, id, s.chain, None, now, Done(Ok(answer.token))));
    } else if IsPermanent(answer.err, answer.reauth) {
      DeadFallbackIsRun(c, s, id, source, answer, now);
    } else {
      Go(c, s, s0, FallbackAnswers(id, answer), At(s, id, s.chain, None, now, Done(Err(answer.err))));
    }
  }

  lemma DeadFallbackIsRun(c: Settings, s: System, id: nat, source: Source, answer: Answer, now: Time)
    requires answer.Refused? && IsPermanent(answer.err, answer.reauth)
    requires Reaches(c, s, At(s, id, s.chain, None, now, AskingFallback(source)))
    ensures var e := ExpiredError(c.provider, answer.err, source);
            Reaches(c, s, At(s, id, s.chain.(expired := Some(Expiry(now, e))), None, now, Done(Err(AsError(e)))))
  {
    var e := ExpiredError(c.provider, answer.err, source);
    var s1 := At(s, id, s.chain, None, now, Recording(now, e));
    Go(c, s, At(s, id, s.chain, None, now, AskingFallback(source)), FallbackAnswers(id, answer), s1);
    Go(c, s, s1, Record(id), At(s, id, s.chain.(expired := Some(Expiry(now, e))), None, now, Done(Err(AsError(e)))));
  }
}
