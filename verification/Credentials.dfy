/**
 The failure policy that every provider credential shares: when a failure is
 permanent, when it is answered from memory, when another credential is probed
 and takes over, and what health reports.

 This module holds the policy as data and functions, and the chain itself as a
 class.  `ChainProtocol` runs many requests over one chain; `SequentialCalls`
 runs them one after another.
 */
module Credentials {
  import opened Common

  /** A reading of the monotone process clock. */
  type Time = nat

  datatype Status = Healthy | Warn | Expired | Unknown

  datatype Verdict = Verdict(status: Status, reason: string, remediation: string)

  /** The typed error for a credential that needs a human. */
  datatype CredentialExpired = CredentialExpired(
    provider: string, kind: string, reason: string, remediation: string, detail: string)

  datatype Cause = Typed(expired: CredentialExpired) | Plain(text: string)

  /** An error with its layers of context, outermost first. */
  datatype Error = Error(layers: seq<Cause>)

  /** What the chain reads from a source besides its answers. */
  datatype Source = Source(kind: string, verdict: Verdict, reason: string, remediation: string)

  /** One reply of a source; `reauth` is its own judgment of the error it raised. */
  datatype Answer = Granted(token: string) | Refused(err: Error, reauth: bool)

  /** The replies to the two ways of asking a source. */
  datatype Replies = Replies(token: Answer, refresh: Answer)

  datatype Settings = Settings(provider: string, configured: string, primary: Source, recheckInterval: nat)

  datatype Expiry = Expiry(at: Time, error: CredentialExpired)

  datatype ChainState = ChainState(active: Option<Source>, lastProbe: Option<Time>, expired: Option<Expiry>)

  const FRESH := ChainState(None, None, None)

  datatype Report = Report(provider: string, source: string, kind: string, fallbackActive: bool, verdict: Verdict)

  type Outcome = Result<string, Error>

  // ---------------------------------------------------------------- the policy

  /** The typed error anywhere among the layers, so that added context never hides it. */
  function FindExpired(err: Error): (found: Option<CredentialExpired>)
    ensures found.None? <==> forall i :: 0 <= i < |err.layers| ==> err.layers[i].Plain?
    ensures found.Some? ==>
              exists i :: 0 <= i < |err.layers| && err.layers[i] == Typed(found.value) &&
                          forall j :: 0 <= j < i ==> err.layers[j].Plain?
    decreases |err.layers|
  {
    if err.layers == [] then None
    else if err.layers[0].Typed? then Some(err.layers[0].expired)
    else FindExpired(Error(err.layers[1..]))
  }

  function AsError(expired: CredentialExpired): Error {
    Error([Typed(expired)])
  }

  predicate IsPermanent(err: Error, reauth: bool) {
    FindExpired(err).Some? || reauth
  }

  /** A plain error is permanent only when its source says so. */
  lemma PermanentIff(err: Error, reauth: bool)
    ensures IsPermanent(err, reauth) <==> reauth || exists i :: 0 <= i < |err.layers| && err.layers[i].Typed?
  {
  }

  function Display(cause: Cause): string {
    match cause
    case Plain(text) => text
    case Typed(e) =>
      "credential_expired: the " + e.provider + " credential (" + e.kind +
      ") can no longer be refreshed and needs human action: " + e.reason + ". " +
      e.remediation + " Upstream said: " + e.detail
  }

  function Describe(layers: seq<Cause>): string {
    if layers == [] then ""
    else if |layers| == 1 then Display(layers[0])
    else Display(layers[0]) + ": " + Describe(layers[1..])
  }

  /** The text of an error names every layer. */
  lemma {:induction false} DescribesEveryLayer(layers: seq<Cause>, i: nat) returns (before: string, after: string)
    requires i < |layers|
    ensures Describe(layers) == before + Display(layers[i]) + after
    ensures layers[i].Plain? ==> Describe(layers) == before + layers[i].text + after
  {
    if |layers| == 1 {
      before, after := "", "";
    } else if i == 0 {
      before, after := "", ": " + Describe(layers[1..]);
    } else {
      before, after := DescribesEveryLayer(layers[1..], i - 1);
      before := Display(layers[0]) + ": " + before;
    }
  }

  function ExpiredError(provider: string, err: Error, source: Source): (e: CredentialExpired)
    ensures FindExpired(err).Some? ==> e == FindExpired(err).value
    ensures FindExpired(err).None? ==>
              e.provider == provider && e.kind == source.kind && e.reason == source.reason &&
              e.remediation == source.remediation && e.detail == Describe(err.layers)
  {
    match FindExpired(err)
    case Some(existing) => existing
    case None => CredentialExpired(provider, source.kind, source.reason, source.remediation, Describe(err.layers))
  }

  function Elapsed(since: Time, now: Time): nat {
    if since <= now then now - since else 0
  }

  function RecentExpiry(st: ChainState, interval: nat, now: Time): Option<CredentialExpired> {
    if st.expired.Some? && Elapsed(st.expired.value.at, now) < interval
    then Some(st.expired.value.error) else None
  }

  predicate ProbedTooRecently(st: ChainState, interval: nat, now: Time) {
    st.lastProbe.Some? && Elapsed(st.lastProbe.value, now) < interval
  }

  function ReportOf(c: Settings, st: ChainState): Report {
    var active := if st.active.Some? then st.active.value else c.primary;
    Report(c.provider, c.configured, active.kind, st.active.Some?,
           match st.expired
           case Some(x) => Verdict(Expired, x.error.reason, x.error.remediation)
           case None => active.verdict)
  }

  // ---------------------------------------------------------------- one whole call

  /** Everything the outside decides during one call that nothing interrupts. */
  datatype World = World(
    askAt: Time,                          // when the memory of a failure is consulted
    primary: Replies,
    fallback: Replies,                    // replies of a fallback already in charge
    offersFallback: bool,                 // whether the primary names a fallback
    probeAt: Time,
    probe: Option<(Source, string)>,      // the fallback and its token, or no answer in time
    stampAt: Time)                        // when a permanent failure is stamped

  predicate Ordered(w: World) {
    w.askAt <= w.probeAt <= w.stampAt
  }

  function Ask(r: Replies, force: bool): Answer {
    if force then r.refresh else r.token
  }

  /** What one call did: the state it left, its result, and what it asked of whom. */
  datatype Call = Call(state: ChainState, result: Outcome, asked: bool, probed: bool, recorded: bool)

  function Escalated(c: Settings, st: ChainState, err: Error, reauth: bool, source: Source, at: Time): (ChainState, Error) {
    if !IsPermanent(err, reauth) then (st, err)
    else
      var e := ExpiredError(c.provider, err, source);
      (st.(expired := Some(Expiry(at, e))), AsError(e))
  }

  /** The state a fallback attempt leaves, the token it found, and whether it probed. */
  datatype Attempt = Attempt(state: ChainState, token: Option<string>, probed: bool)

  function TriedFallback(c: Settings, st: ChainState, w: World): Attempt {
    if !w.offersFallback then Attempt(st, None, false)
    else if st.active.Some? then
      Attempt(st, if w.fallback.token.Granted? then Some(w.fallback.token.token) else None, false)
    else if ProbedTooRecently(st, c.recheckInterval, w.probeAt) then Attempt(st, None, false)
    else
      match w.probe
      case None => Attempt(st.(lastProbe := Some(w.probeAt)), None, true)
      case Some((source, token)) => Attempt(ChainState(Some(source), Some(w.probeAt), None), Some(token), true)
  }

  function Fetched(c: Settings, st: ChainState, force: bool, w: World): Call {
    if st.active.Some? then
      match Ask(w.fallback, force)
      case Granted(token) => Call(st, Ok(token), false, false, false)
      case Refused(err, reauth) =>
        var (st', e) := Escalated(c, st, err, reauth, st.active.value, w.stampAt);
        Call(st', Err(e), false, false, IsPermanent(err, reauth))
    else if RecentExpiry(st, c.recheckInterval, w.askAt).Some? then
      Call(st, Err(AsError(RecentExpiry(st, c.recheckInterval, w.askAt).value)), false, false, false)
    else
      match Ask(w.primary, force)
      case Granted(token) => Call(st.(expired := None), Ok(token), true, false, false)
      case Refused(err, reauth) =>
        if !IsPermanent(err, reauth) then Call(st, Err(err), true, false, false)
        else
          var Attempt(st1, token, probed) := TriedFallback(c, st, w);
          if token.Some? then Call(st1, Ok(token.value), true, probed, false)
          else
            var e := ExpiredError(c.provider, err, c.primary);
            Call(st1.(expired := Some(Expiry(w.stampAt, e))), Err(AsError(e)), true, probed, true)
  }

  // ---------------------------------------------------------------- the chain object

  /** One credential with its fallback, as `token`, `force_refresh` and `report` use it. */
  class CredentialChain {
    const settings: Settings
    var activeFallback: Option<Source>
    var lastProbe: Option<Time>
    var expired: Option<Expiry>

    constructor (settings: Settings)
      ensures this.settings == settings && State() == FRESH
    {
      this.settings := settings;
      activeFallback, lastProbe, expired := None, None, None;
    }

    function State(): ChainState
      reads this
    {
      ChainState(activeFallback, lastProbe, expired)
    }

    method Fetch(force: bool, w: World) returns (result: Outcome)
      modifies this
      ensures State() == Fetched(settings, old(State()), force, w).state
      ensures result == Fetched(settings, old(State()), force, w).result
    {
      if activeFallback.Some? {
        var answer := Ask(w.fallback, force);
        if answer.Granted? {
          return Ok(answer.token);
        }
        var e := Escalate(answer.err, answer.reauth, activeFallback.value, w.stampAt);
        return Err(e);
      }
      var recent := RecentExpiry(State(), settings.recheckInterval, w.askAt);
      if recent.Some? {
        return Err(AsError(recent.value));
      }
      var answer := Ask(w.primary, force);
      if answer.Granted? {
        expired := None;
        return Ok(answer.token);
      }
      if !IsPermanent(answer.err, answer.reauth) {
        return Err(answer.err);
      }
      var token := TryFallback(w);
      if token.Some? {
        return Ok(token.value);
      }
      var e := ExpiredError(settings.provider, answer.err, settings.primary);
      expired := Some(Expiry(w.stampAt, e));
      return Err(AsError(e));
    }

    method Escalate(err: Error, reauth: bool, source: Source, at: Time) returns (e: Error)
      modifies this`expired
      ensures (State(), e) == Escalated(settings, old(State()), err, reauth, source, at)
    {
      if !IsPermanent(err, reauth) {
        return err;
      }
      var typed := ExpiredError(settings.provider, err, source);
      expired := Some(Expiry(at, typed));
      return AsError(typed);
    }

    method TryFallback(w: World) returns (token: Option<string>)
      modifies this
      ensures State() == TriedFallback(settings, old(State()), w).state
      ensures token == TriedFallback(settings, old(State()), w).token
    {
      if !w.offersFallback {
        return None;
      }
      if activeFallback.Some? {
        return if w.fallback.token.Granted? then Some(w.fallback.token.token) else None;
      }
      if ProbedTooRecently(State(), settings.recheckInterval, w.probeAt) {
        return None;
      }
      lastProbe := Some(w.probeAt);
      if w.probe.Some? {
        activeFallback := Some(w.probe.value.0);
        expired := None;
        return Some(w.probe.value.1);
      }
      return None;
    }

    method Health() returns (r: Report)
      ensures r == ReportOf(settings, State())
      ensures r.verdict.status == Expired <==>
              expired.Some? || (if activeFallback.Some? then activeFallback.value else settings.primary).verdict.status == Expired
    {
      var active := if activeFallback.Some? then activeFallback.value else settings.primary;
      var verdict := active.verdict;
      if expired.Some? {
        verdict := Verdict(Expired, expired.value.error.reason, expired.value.error.remediation);
      }
      r := Report(settings.provider, settings.configured, active.kind, activeFallback.Some?, verdict);
    }
  }
}
