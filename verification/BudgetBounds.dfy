/**
 * Sums of a reachable token window fit in 64 bits: reported counts are bounded
 * (src/proxy/telemetry.rs), so are limits (src/proxy/config.rs) and the
 * permits that attempts run under (src/proxy/runtime.rs). The exact delays
 * hold in every reachable state therefore.
 */
module BudgetBounds {
  import opened Prelude
  import opened TokenBudget
  import opened Config
  import opened Attempts
  import opened WakeUp

  const MAX_TOKENS: nat := 1_000_000_000_000_000
  const MAX_CHARGE: nat := 2 * MAX_TOKENS
  const MAX_LIMIT: nat := 1_000_000_000
  const MAX_PERMITS: nat := 1024
  const MAX_HELD: nat := MAX_LIMIT + MAX_PERMITS * MAX_CHARGE

  /** Usage as it is read from a response: larger counts are not taken for usage. */
  predicate Normalised(usage: Usage) {
    usage.input <= MAX_TOKENS && usage.output <= MAX_TOKENS && usage.total <= MAX_CHARGE
  }

  /** Every attempt runs under a permit, and usage is normalised. */
  ghost predicate Permitted(s: State, step: Step) {
    match step
    case Begin(_, _, _, _, _) => |s.live| < MAX_PERMITS
    case Settle(_, _, usage, _) => usage.Some? ==> Normalised(usage.value)
    case _ => true
  }

  ghost predicate AllPermitted(s: State, steps: seq<Step>) {
    forall n :: 0 <= n < |steps| ==> Permitted(Run(s, steps[..n]), steps[n])
  }

  /** Everything in a window, expired samples included. */
  ghost function Held(w: Window): nat {
    Sum(w.entries) + ReservedSum(w.reservations)
  }

  /** What the window holds and what the attempts in flight can still be charged. */
  ghost function Reach(w: Window): nat {
    Held(w) + |w.reservations| * MAX_CHARGE
  }

  lemma OccupiedIsHeld(w: Window, t: real)
    ensures Occupied(w, t) <= Held(w)
  {
    LiveShrinks(w.entries, t);
  }

  // ---------------------------------------------------------------------
  // One operation
  // ---------------------------------------------------------------------

  /** An admitted reservation leaves no more than the hard limit in the window, whatever was there before. */
  lemma ReserveIsBounded(w: Window, policy: Policy, id: string, tokens: u64, at: real)
    requires id !in w.reservations && Admits(w, policy, tokens, at)
    ensures Held(Apply(w, Op.Reserve(id, tokens, at))) <= policy.hard
    ensures |Apply(w, Op.Reserve(id, tokens, at)).reservations| == |w.reservations| + 1
  {
    ReservedSumInsert(w.reservations, id, tokens);
    assert w.reservations[id := tokens].Keys == w.reservations.Keys + {id};
  }

  /** A settlement turns what the attempt could still be charged into its charge. */
  lemma FinishIsBounded(w: Window, id: string, entry: BudgetEntry, at: real)
    requires id in w.reservations && entry.tokens <= w.reservations[id] + MAX_CHARGE
    ensures Reach(Apply(w, Op.Finish(id, Some(entry), at))) <= Reach(w)
  {
    var after := Apply(w, Op.Finish(id, Some(entry), at));
    LiveShrinks(w.entries, at);
    SumConcat(Live(w.entries, at), Kept(Some(entry)));
    assert [entry][..0] == [];
    ReservedSumRemove(w.reservations, id);
    assert w.reservations.Keys == after.reservations.Keys + {id};
    OneLess(|w.reservations|);
  }

  lemma OneLess(n: nat)
    requires n > 0
    ensures (n - 1) * MAX_CHARGE == n * MAX_CHARGE - MAX_CHARGE
  {
  }

  lemma HeldWithinReach(w: Window, t: real)
    ensures Occupied(w, t) <= Reach(w)
  {
    OccupiedIsHeld(w, t);
    assert |w.reservations| * MAX_CHARGE >= 0;
  }

  lemma ReachOf(w: Window)
    requires Held(w) <= MAX_LIMIT && |w.reservations| <= MAX_PERMITS
    ensures Reach(w) <= MAX_HELD
  {
  }

  lemma ChargeIsBounded(id: string, guard: Guard, usage: Option<Usage>, at: real)
    requires usage.Some? ==> Normalised(usage.value)
    ensures Charge(id, guard, usage, at).tokens <= guard.reserved + MAX_CHARGE
  {
  }

  // ---------------------------------------------------------------------
  // Runs
  // ---------------------------------------------------------------------

  lemma FewReservations(live: map<string, Guard>, provider: string)
    ensures |Reservations(live, provider)| <= |live|
  {
    var rest := live.Keys - Reservations(live, provider).Keys;
    assert live.Keys == Reservations(live, provider).Keys + rest;
  }

  lemma BeganIsBounded(s: State, id: string, backend: Backend, reserved: u64, at: real)
    requires ProviderMatches(s, backend.id) && id !in s.live && |s.live| < MAX_PERMITS
    requires CanAdmit(s, backend, reserved, at)
    ensures Reach(WindowOf(Began(s, id, backend, reserved, at).budgets, backend.id)) <= MAX_HELD
  {
    var w := WindowOf(s.budgets, backend.id);
    FewReservations(s.live, backend.id);
    ReserveIsBounded(w, PolicyFor(s.config, backend), id, reserved, at);
    ReachOf(Apply(w, Op.Reserve(id, reserved, at)));
  }

  lemma EndingIsBounded(s: State, id: string, outcome: Outcome, usage: Option<Usage>, at: real)
    requires id in s.live && ProviderMatches(s, s.live[id].provider) && (usage.Some? ==> Normalised(usage.value))
    ensures Reach(WindowOf(Ending(s, id, outcome, usage, at).budgets, s.live[id].provider))
            <= Reach(WindowOf(s.budgets, s.live[id].provider))
  {
    var guard := s.live[id];
    ChargeIsBounded(id, guard, usage, at);
    FinishIsBounded(WindowOf(s.budgets, guard.provider), id, Charge(id, guard, usage, at), at);
  }

  lemma StepIsBounded(s: State, step: Step, provider: string)
    requires Conserved(s) && Enabled(s, step) && Permitted(s, step)
    requires Reach(WindowOf(s.budgets, provider)) <= MAX_HELD
    ensures Reach(WindowOf(Next(s, step).budgets, provider)) <= MAX_HELD
  {
    assert ProviderMatches(s, provider);
    match step
    case Begin(id, backend, known, reserved, at) =>
      if known && backend.id == provider && CanAdmit(s, backend, reserved, at) {
        BeganIsBounded(s, id, backend, reserved, at);
      }
    case Settle(id, outcome, usage, at) =>
      if id in s.live && s.live[id].provider == provider {
        EndingIsBounded(s, id, outcome, usage, at);
      }
    case _ =>
  }

  lemma PermittedPrefix(s: State, steps: seq<Step>)
    requires steps != [] && AllPermitted(s, steps) && ValidRun(s, steps)
    ensures AllPermitted(s, steps[..|steps| - 1]) && ValidRun(s, steps[..|steps| - 1])
    ensures Permitted(Run(s, steps[..|steps| - 1]), steps[|steps| - 1])
    ensures Enabled(Run(s, steps[..|steps| - 1]), steps[|steps| - 1])
  {
    var init := steps[..|steps| - 1];
    forall n | 0 <= n < |init| ensures Permitted(Run(s, init[..n]), init[n]) && Enabled(Run(s, init[..n]), init[n]) {
      assert init[..n] == steps[..n] && init[n] == steps[n];
    }
  }

  /** What a window holds stays bounded in every run, whatever the clock reads. */
  lemma {:induction false} HeldIsBounded(s: State, steps: seq<Step>, provider: string)
    requires Initial(s) && ValidRun(s, steps) && AllPermitted(s, steps)
    requires Held(WindowOf(s.budgets, provider)) <= MAX_HELD
    ensures Reach(WindowOf(Run(s, steps).budgets, provider)) <= MAX_HELD
  {
    if steps == [] {
      assert WindowOf(s.budgets, provider).reservations == map[];
    } else {
      var init := steps[..|steps| - 1];
      PermittedPrefix(s, steps);
      HeldIsBounded(s, init, provider);
      ReachableIsConserved(s, init);
      StepIsBounded(Run(s, init), steps[|steps| - 1], provider);
    }
  }

  /** No sum of a reachable window exceeds 64 bits. */
  lemma SumsFit(s: State, steps: seq<Step>, provider: string, t: real)
    requires Initial(s) && ValidRun(s, steps) && AllPermitted(s, steps)
    requires Held(WindowOf(s.budgets, provider)) <= MAX_HELD
    ensures Occupied(WindowOf(Run(s, steps).budgets, provider), t) <= MAX_HELD < U64_MAX
  {
    HeldIsBounded(s, steps, provider);
    HeldWithinReach(WindowOf(Run(s, steps).budgets, provider), t);
  }

  /** In every reachable state the advertised delay is exact. */
  lemma ReachableDelayIsExact(s: State, steps: seq<Step>, provider: string, policy: Policy, estimate: u64, at: real)
    requires Initial(s) && ValidRun(s, steps) && AllPermitted(s, steps)
    requires Held(WindowOf(s.budgets, provider)) <= MAX_HELD
    ensures var w := WindowOf(Run(s, steps).budgets, provider);
            var delay := RetryAfter(w, policy, estimate, at);
            && (delay == 0.0 <==> Admits(w, policy, estimate, at))
            && (!Admits(w, policy, estimate, at) ==>
                  || (exists moment: real :: moment > at && FitsExactlyFrom(w, policy, estimate, at, moment)
                        && delay == if w.reservations == map[] then Max(moment - at, RETRY_FLOOR)
                                    else Min(Max(moment - at, RETRY_FLOOR), RECHECK_SECONDS))
                  || ((forall t: real :: t >= at ==> !Admits(w, policy, estimate, t))
                      && delay == RECHECK_SECONDS && (w.reservations != map[] || estimate > policy.hard)))
  {
    SumsFit(s, steps, provider, at);
    RetryDelayIsExact(WindowOf(Run(s, steps).budgets, provider), policy, estimate, at);
  }

  /** The providers a request waits for: windows of one state, all blocked, nothing in flight. */
  ghost predicate Waiting(s: State, cs: seq<Candidate>, estimate: u64, at: real) {
    forall c :: c in cs ==>
      && c.Blocked(estimate, at) && c.cooling >= 0.0 && c.window.reservations == map[]
      && exists p: string :: c.window == WindowOf(s.budgets, p)
  }

  /** In every reachable state no provider becomes ready before the wake-up, up to the floor. */
  lemma ReachableWakeUpIsEarlyEnough(s: State, steps: seq<Step>, cs: seq<Candidate>, estimate: u64, at: real, p: string,
                                     c: Candidate, t: real)
    requires Initial(s) && ValidRun(s, steps) && AllPermitted(s, steps)
    requires Held(WindowOf(s.budgets, p)) <= MAX_HELD
    requires c in cs && c.window == WindowOf(Run(s, steps).budgets, p) && t >= at && c.Ready(estimate, at, t)
    ensures at + Delay(cs, estimate, at) <= Max(t, at + RETRY_FLOOR)
  {
    SumsFit(s, steps, p, at);
    WakeUpIsEarlyEnough(cs, estimate, at, c, t);
  }

  /** In every reachable state the wake-up is exact when nothing is in flight. */
  lemma ReachableWakeUpIsExact(s: State, steps: seq<Step>, cs: seq<Candidate>, estimate: u64, at: real)
    requires Initial(s) && ValidRun(s, steps) && AllPermitted(s, steps)
    requires forall p: string :: Held(WindowOf(s.budgets, p)) <= MAX_HELD
    requires Waiting(Run(s, steps), cs, estimate, at) && exists c :: c in cs && !c.Oversized(estimate)
    ensures Delay(cs, estimate, at) > 0.0
    ensures exists c :: c in cs && c.Ready(estimate, at, at + Delay(cs, estimate, at))
    ensures Delay(cs, estimate, at) > RETRY_FLOOR ==>
              forall c, t: real :: c in cs && at <= t < at + Delay(cs, estimate, at) ==> !c.Ready(estimate, at, t)
  {
    forall c | c in cs ensures Occupied(c.window, at) <= U64_MAX {
      var p: string :| c.window == WindowOf(Run(s, steps).budgets, p);
      SumsFit(s, steps, p, at);
    }
    WakeUpIsExact(cs, estimate, at);
  }
}
