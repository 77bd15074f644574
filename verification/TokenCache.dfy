/**
 The token cache of an Entra credential: one token, refreshed ahead of its
 expiry.  Calls are serialised by the lock that is held across the fetch.
 */
module TokenCache {
  import opened Common

  /** Nanoseconds, as an instant or as a span. */
  type Nanos = nat

  const SECOND := 1_000_000_000
  const EXPIRY_SKEW := 300 * SECOND

  datatype Slot = Slot(token: string, refreshAfter: Nanos)

  /** What the token endpoint answers when it is asked. */
  datatype Answer = Issued(token: string, lifetime: Nanos) | Failed(error: string)

  /** One call: when it looks at the cache, and the answer and time of the fetch it may make. */
  datatype Call = Call(force: bool, at: Nanos, answer: Answer, fetchedAt: Nanos)

  function Skew(lifetime: Nanos): (skew: Nanos)
    ensures skew <= lifetime
  {
    if EXPIRY_SKEW < lifetime / 2 then EXPIRY_SKEW else lifetime / 2
  }

  predicate Fetches(slot: Option<Slot>, c: Call) {
    c.force || slot.None? || slot.value.refreshAfter <= c.at
  }

  function SlotAfter(slot: Option<Slot>, c: Call): Option<Slot> {
    if Fetches(slot, c) && c.answer.Issued? then
      Some(Slot(c.answer.token, c.fetchedAt + (c.answer.lifetime - Skew(c.answer.lifetime))))
    else slot
  }

  function Returned(slot: Option<Slot>, c: Call): Result<string, string> {
    if !Fetches(slot, c) then Ok(slot.value.token)
    else if c.answer.Issued? then Ok(c.answer.token)
    else Err(c.answer.error)
  }

  class Cache {
    var slot: Option<Slot>

    constructor ()
      ensures slot == None
    {
      slot := None;
    }

    method Get(c: Call) returns (result: Result<string, string>)
      modifies this
      ensures slot == SlotAfter(old(slot), c) && result == Returned(old(slot), c)
      ensures result.Err? ==> slot == old(slot)
    {
      if !c.force && slot.Some? && c.at < slot.value.refreshAfter {
        return Ok(slot.value.token);
      }
      if c.answer.Failed? {
        return Err(c.answer.error);
      }
      var lifetime := c.answer.lifetime;
      var skew := if EXPIRY_SKEW < lifetime / 2 then EXPIRY_SKEW else lifetime / 2;
      var remaining := if skew < lifetime then lifetime - skew else 0;
      slot := Some(Slot(c.answer.token, c.fetchedAt + remaining));
      return Ok(c.answer.token);
    }
  }

  // ---------------------------------------------------------------- over sequences of calls

  function After(calls: seq<Call>): Option<Slot>
    decreases |calls|
  {
    if calls == [] then None else SlotAfter(After(calls[..|calls| - 1]), calls[|calls| - 1])
  }

  predicate FetchesAt(calls: seq<Call>, k: nat)
    requires k < |calls|
  {
    Fetches(After(calls[..k]), calls[k])
  }

  function ReturnedAt(calls: seq<Call>, k: nat): Result<string, string>
    requires k < |calls|
  {
    Returned(After(calls[..k]), calls[k])
  }

  /** Time does not run backwards, and a fetch ends after it began. */
  ghost predicate InOrder(calls: seq<Call>) {
    (forall i :: 0 <= i < |calls| ==> calls[i].at <= calls[i].fetchedAt) &&
    (forall i, j :: 0 <= i < j < |calls| ==> calls[i].fetchedAt <= calls[j].at)
  }

  /** The last call whose fetch brought a token. */
  function LastIssue(calls: seq<Call>): (k: Option<nat>)
    ensures k.Some? ==> k.value < |calls| && calls[k.value].answer.Issued?
    decreases |calls|
  {
    if calls == [] then None
    else
      var n := |calls| - 1;
      if FetchesAt(calls, n) && calls[n].answer.Issued? then Some(n) else LastIssue(calls[..n])
  }

  /** How long before its end an issued token is no longer served: 300 seconds, or half its lifetime. */
  function Margin(issued: Call): Nanos
    requires issued.answer.Issued?
  {
    Least(300_000_000_000, issued.answer.lifetime / 2)
  }

  /** The slot holds the token issued last, to be refreshed its margin before it ends. */
  lemma {:induction false} SlotIsLastIssue(calls: seq<Call>)
    ensures LastIssue(calls).None? ==> After(calls) == None
    ensures LastIssue(calls).Some? ==>
              var issued := calls[LastIssue(calls).value];
              After(calls).Some? && After(calls).value.token == issued.answer.token &&
              After(calls).value.refreshAfter + Margin(issued) == issued.fetchedAt + issued.answer.lifetime
    decreases |calls|
  {
    if calls != [] {
      var n := |calls| - 1;
      SlotIsLastIssue(calls[..n]);
    }
  }

  function Least(a: nat, b: nat): nat {
    if a < b then a else b
  }

  /** Fresh: more than its margin before its end. */
  predicate Fresh(issued: Call, now: Nanos)
    requires issued.answer.Issued?
  {
    now + Margin(issued) < issued.fetchedAt + issued.answer.lifetime
  }

  /** A request is made exactly when the call forces it, or when there is no fresh token; else the token issued last is served. */
  lemma RequestIsMadeIff(calls: seq<Call>, k: nat)
    requires k < |calls|
    ensures var last := LastIssue(calls[..k]);
            (FetchesAt(calls, k) <==> calls[k].force || last.None? || !Fresh(calls[last.value], calls[k].at)) &&
            (!FetchesAt(calls, k) ==> ReturnedAt(calls, k) == Ok(calls[last.value].answer.token))
  {
    SlotIsLastIssue(calls[..k]);
  }

  /** A call that makes a request returns what the request brought. */
  lemma RequestsAnswerCalls(calls: seq<Call>, k: nat)
    requires k < |calls| && FetchesAt(calls, k)
    ensures ReturnedAt(calls, k) ==
            match calls[k].answer
            case Issued(token, _) => Ok(token)
            case Failed(error) => Err(error)
  {
  }

  /**
   A token served from the cache is the one issued last and has more than the
   smaller of 300 seconds and half its lifetime left, so that a token without
   lifetime is never served again.
   */
  lemma ServedTokensAreFresh(calls: seq<Call>, k: nat) returns (i: nat)
    requires InOrder(calls) && k < |calls| && !FetchesAt(calls, k)
    ensures i < k && LastIssue(calls[..k]) == Some(i) && calls[i].answer.Issued?
    ensures ReturnedAt(calls, k) == Ok(calls[i].answer.token)
    ensures calls[i].fetchedAt + calls[i].answer.lifetime - calls[k].at > Least(300_000_000_000, calls[i].answer.lifetime / 2)
    ensures calls[i].answer.lifetime > 0
  {
    RequestIsMadeIff(calls, k);
    i := LastIssue(calls[..k]).value;
    assert calls[i].fetchedAt <= calls[k].at;
  }

  /** The number of requests to the endpoint that the calls from `i` up to `j` make. */
  function Requests(calls: seq<Call>, i: nat, j: nat): nat
    requires i <= j <= |calls|
    decreases j
  {
    if i == j then 0 else (if FetchesAt(calls, j - 1) then 1 else 0) + Requests(calls, i, j - 1)
  }

  /** All plain calls inside the fresh period of an issued token return it, and only the first asked for it. */
  lemma {:induction false} OneRequestPerFreshPeriod(calls: seq<Call>, i: nat, j: nat)
    requires i < j <= |calls| && FetchesAt(calls, i) && calls[i].answer.Issued?
    requires forall k :: i < k < j ==> !calls[k].force && Fresh(calls[i], calls[k].at)
    ensures Requests(calls, i, j) == 1
    ensures forall k :: i <= k < j ==> ReturnedAt(calls, k) == Ok(calls[i].answer.token)
    ensures After(calls[..j]) == SlotAfter(After(calls[..i]), calls[i])
    decreases j
  {
    assert calls[..j][..j - 1] == calls[..j - 1];
    if j == i + 1 {
      assert Requests(calls, i, i) == 0;
    } else {
      OneRequestPerFreshPeriod(calls, i, j - 1);
    }
  }
}
