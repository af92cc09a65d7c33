/**
 * How long a request waits when no provider can take it
 * (src/proxy/runtime.rs, the end of a pass of `forward`).
 */
module WakeUp {
  import opened Prelude
  import opened TokenBudget

  /** A usable provider at the end of a pass: its window, its limits and the rest of its cooldown. */
  datatype Candidate = Candidate(window: Window, policy: Policy, cooling: real) {
    ghost predicate OverBudget(estimate: u64, at: real) {
      !Admits(window, policy, estimate, at)
    }

    ghost predicate Blocked(estimate: u64, at: real) {
      cooling > 0.0 || OverBudget(estimate, at)
    }

    predicate Oversized(estimate: u64) {
      estimate > policy.hard
    }

    ghost function Wait(estimate: u64, at: real): real {
      Max(cooling, if OverBudget(estimate, at) then Max(RetryAfter(window, policy, estimate, at), RETRY_FLOOR) else 0.0)
    }

    /** Out of cooldown and able to admit the request at `t`, if nothing else happens after `at`. */
    ghost predicate Ready(estimate: u64, at: real, t: real) {
      cooling <= t - at && Admits(window, policy, estimate, t)
    }
  }

  /** The least wait of the providers that are not oversized. */
  ghost function LeastWait(cs: seq<Candidate>, estimate: u64, at: real): Option<real> {
    if cs == [] then None
    else
      var rest, last := LeastWait(cs[..|cs| - 1], estimate, at), cs[|cs| - 1];
      if last.Oversized(estimate) then rest
      else if rest.Some? && rest.value <= last.Wait(estimate, at) then rest
      else Some(last.Wait(estimate, at))
  }

  ghost function Delay(cs: seq<Candidate>, estimate: u64, at: real): real {
    var least := LeastWait(cs, estimate, at);
    if least.Some? then least.value else 0.0
  }

  lemma {:induction false} LeastIsAttained(cs: seq<Candidate>, estimate: u64, at: real)
    ensures LeastWait(cs, estimate, at).None? <==> forall c :: c in cs ==> c.Oversized(estimate)
    ensures LeastWait(cs, estimate, at).Some? ==>
              && (exists c :: c in cs && !c.Oversized(estimate)
                        && c.Wait(estimate, at) == LeastWait(cs, estimate, at).value)
              && forall c :: c in cs && !c.Oversized(estimate) ==>
                   LeastWait(cs, estimate, at).value <= c.Wait(estimate, at)
  {
    if cs == [] {
    } else {
      LeastIsAttained(cs[..|cs| - 1], estimate, at);
      assert cs == cs[..|cs| - 1] + [cs[|cs| - 1]];
    }
  }

  /** No provider is ready long before its own wait is over, requests in flight or not. */
  lemma NotReadyBefore(c: Candidate, estimate: u64, at: real, t: real)
    requires Occupied(c.window, at) <= U64_MAX && t >= at && c.Ready(estimate, at, t)
    ensures !c.Oversized(estimate)
    ensures at + c.Wait(estimate, at) <= Max(t, at + RETRY_FLOOR)
  {
    if c.Oversized(estimate) {
      OversizedNeverFits(c.window, c.policy, estimate, t);
    }
    RetryDelayIsExact(c.window, c.policy, estimate, at);
  }

  /** With nothing in flight, a provider is ready when its own wait is over. */
  lemma ReadyAfterWait(c: Candidate, estimate: u64, at: real)
    requires Occupied(c.window, at) <= U64_MAX && c.cooling >= 0.0
    requires c.window.reservations == map[] && !c.Oversized(estimate)
    ensures c.Ready(estimate, at, at + c.Wait(estimate, at))
  {
    RetryDelayWithoutReservations(c.window, c.policy, estimate, at);
  }

  /** A request never oversleeps: no provider is ready before the wake-up, up to the floor. */
  lemma WakeUpIsEarlyEnough(cs: seq<Candidate>, estimate: u64, at: real, c: Candidate, t: real)
    requires c in cs && Occupied(c.window, at) <= U64_MAX && t >= at && c.Ready(estimate, at, t)
    ensures at + Delay(cs, estimate, at) <= Max(t, at + RETRY_FLOOR)
  {
    NotReadyBefore(c, estimate, at, t);
    LeastIsAttained(cs, estimate, at);
  }

  /** Every provider is blocked, nothing is in flight and the sums are exact. */
  ghost predicate AllWaiting(cs: seq<Candidate>, estimate: u64, at: real) {
    forall c :: c in cs ==>
      c.Blocked(estimate, at) && c.cooling >= 0.0 && c.window.reservations == map[] && Occupied(c.window, at) <= U64_MAX
  }

  lemma ReadyAtDelay(c: Candidate, estimate: u64, at: real, delay: real)
    requires c.Blocked(estimate, at) && c.cooling >= 0.0 && c.window.reservations == map[]
    requires Occupied(c.window, at) <= U64_MAX && !c.Oversized(estimate) && delay == c.Wait(estimate, at)
    ensures delay > 0.0 && c.Ready(estimate, at, at + delay)
  {
    ReadyAfterWait(c, estimate, at);
  }

  lemma FirstToWake(cs: seq<Candidate>, estimate: u64, at: real) returns (first: Candidate)
    requires exists c :: c in cs && !c.Oversized(estimate)
    ensures first in cs && !first.Oversized(estimate) && first.Wait(estimate, at) == Delay(cs, estimate, at)
  {
    LeastIsAttained(cs, estimate, at);
    first :| first in cs && !first.Oversized(estimate) && first.Wait(estimate, at) == LeastWait(cs, estimate, at).value;
  }

  lemma SomeIsReady(cs: seq<Candidate>, estimate: u64, at: real) returns (first: Candidate)
    requires AllWaiting(cs, estimate, at) && exists c :: c in cs && !c.Oversized(estimate)
    ensures Delay(cs, estimate, at) > 0.0
    ensures first in cs && first.Ready(estimate, at, at + Delay(cs, estimate, at))
  {
    first := FirstToWake(cs, estimate, at);
    ReadyAtDelay(first, estimate, at, Delay(cs, estimate, at));
  }

  /**
   * With nothing in flight, when every provider is blocked and one of them can
   * ever take the request, one is out of cooldown and admits it at the
   * wake-up, and, up to the floor, none is before.
   */
  lemma WakeUpIsExact(cs: seq<Candidate>, estimate: u64, at: real)
    requires AllWaiting(cs, estimate, at) && exists c :: c in cs && !c.Oversized(estimate)
    ensures Delay(cs, estimate, at) > 0.0
    ensures exists c :: c in cs && c.Ready(estimate, at, at + Delay(cs, estimate, at))
    ensures Delay(cs, estimate, at) > RETRY_FLOOR ==>
              forall c, t: real :: c in cs && at <= t < at + Delay(cs, estimate, at) ==> !c.Ready(estimate, at, t)
  {
    var first := SomeIsReady(cs, estimate, at);
    var delay := Delay(cs, estimate, at);
    forall c, t: real | c in cs && at <= t < at + delay && delay > RETRY_FLOOR ensures !c.Ready(estimate, at, t) {
      if c.Ready(estimate, at, t) {
        WakeUpIsEarlyEnough(cs, estimate, at, c, t);
      }
    }
  }
}
