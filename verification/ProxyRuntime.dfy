/**
 * The state behind the proxy's one lock: accounting and routing together
 * (src/proxy/runtime.rs, `Inner`, `AttemptGuard::begin` and `reload`).
 */
module ProxyRuntime {
  import opened Prelude
  import opened Config
  import opened AttemptRuntime
  import opened RouteRuntime
  import A = Attempts
  import T = RouteTables

  class Runtime {
    const accounts: Inner
    const routing: RoutingState

    constructor (accounts: Inner, routing: RoutingState)
      ensures this.accounts == accounts && this.routing == routing
    {
      this.accounts, this.routing := accounts, routing;
    }

    /** Both halves are in order and have one configuration. */
    ghost predicate Valid()
      reads accounts, routing
    {
      accounts.Valid() && T.Sound(routing.Value()) && accounts.config == routing.config
    }

    /** A request without a route, or with one that is still there. */
    predicate RouteKnown(key: Option<string>)
      reads routing`routes
    {
      key.None? || key.value in routing.routes
    }

    /**
     * Begin an attempt in one critical section: the route must still exist and
     * the budget admit the request; then its tokens are reserved and the
     * attempt is noted on its route.
     */
    method Begin(id: string, backend: Backend, key: Option<string>, reserved: u64, at: real)
      returns (result: Result<AttemptGuard, Rejected>)
      requires Valid() && A.Enabled(accounts.Value(), A.Step.Begin(id, backend, RouteKnown(key), reserved, at))
      modifies accounts, accounts.budgets.Values, routing`routes
      ensures Valid() && fresh(accounts.budgets.Values - old(accounts.budgets.Values))
      ensures accounts.Value()
              == A.Next(old(accounts.Value()), A.Step.Begin(id, backend, old(RouteKnown(key)), reserved, at))
      ensures routing.Value()
              == if result.Ok? && key.Some? then T.NoteAttempt(old(routing.Value()), key.value, backend.id)
                 else old(routing.Value())
      ensures result == Err(RouteUnavailable) <==> key.Some? && key.value !in old(routing.routes)
      ensures result == Err(TokenBudgetExceeded) <==>
                old(RouteKnown(key)) && !old(A.CanAdmit(accounts.Value(), backend, reserved, at))
      ensures result.Ok? ==> fresh(result.value) && !result.value.finished && result.value.Holds(accounts)
    {
      result := accounts.Begin(id, backend, RouteKnown(key), reserved, at);
      if result.Ok? && key.Some? {
        routing.NoteAttemptOn(key.value, backend.id);
      }
    }

    /** A reload replaces the configuration of both halves and drops the routes it no longer serves. */
    method Reload(settings: seq<Settings>, wait: real)
      requires Valid()
      modifies accounts`config, accounts`counters, accounts`nextCounter, routing
      ensures Valid()
      ensures accounts.Value() == A.Next(old(accounts.Value()), A.Step.Reload(settings))
      ensures routing.Value() == T.Reload(old(routing.Value()), accounts.config, wait)
    {
      accounts.Reload(settings);
      routing.ReloadConfig(accounts.config, wait);
    }
  }
}
