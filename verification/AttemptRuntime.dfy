/**
 * The mutable accounting structures of the proxy, proved against the steps of
 * `Attempts`: the shared state behind the lock, and the guard a request owns.
 */
module AttemptRuntime {
  import opened Prelude
  import opened TokenBudget
  import opened Config
  import opened Attempts

  datatype Rejected = RouteUnavailable | TokenBudgetExceeded

  class Inner {
    var config: seq<Backend>
    var budgets: map<string, TokenWindow>
    var counters: map<nat, Counts>
    var nextCounter: nat
    var stats: Counts
    var budgetSkips: nat
    ghost var live: map<string, Guard>
    var statuses: map<Answer, nat>
    ghost var settled: seq<Settlement>
    ghost var answers: seq<Answer>

    /** Providers never share a window. */
    ghost predicate Valid()
      reads this`budgets
    {
      forall p, q :: p in budgets && q in budgets && p != q ==> budgets[p] != budgets[q]
    }

    ghost function Windows(): map<string, Window>
      reads this`budgets, budgets.Values
    {
      map p | p in budgets :: budgets[p].Value()
    }

    ghost function Value(): State
      reads this, budgets.Values
    {
      State(config, Windows(), counters, statuses, nextCounter, stats, budgetSkips, live, settled, answers)
    }

    method Policy(backend: Backend) returns (policy: Policy)
      ensures policy == PolicyFor(config, backend)
    {
      for i := 0 to |config|
        invariant Find(config, backend.id) == Find(config[i..], backend.id)
      {
        if config[i].id == backend.id {
          return config[i].policy;
        }
        assert config[i..][1..] == config[i + 1..];
      }
      policy := backend.policy;
    }

    /** The window of a provider, created on first use. */
    method WindowEntry(provider: string) returns (window: TokenWindow)
      requires Valid()
      modifies this`budgets
      ensures Valid() && provider in budgets && budgets[provider] == window
      ensures budgets == old(budgets)[provider := window]
      ensures if provider in old(budgets) then window == old(budgets)[provider]
              else fresh(window) && window.Value() == EMPTY
    {
      if provider in budgets {
        window := budgets[provider];
      } else {
        window := new TokenWindow();
        budgets := budgets[provider := window];
      }
    }

    method Reserve(provider: string, id: string, tokens: u64, at: real)
      requires Valid()
      modifies this`budgets, budgets.Values
      ensures Valid() && fresh(budgets.Values - old(budgets.Values))
      ensures Windows() == ReserveIn(old(Windows()), provider, id, tokens, at)
    {
      var window := WindowEntry(provider);
      window.Reserve(id, tokens, at);
    }

    method Finish(provider: string, id: string, entry: BudgetEntry, at: real)
      requires Valid()
      modifies this`budgets, budgets.Values
      ensures Valid() && fresh(budgets.Values - old(budgets.Values))
      ensures Windows() == FinishIn(old(Windows()), provider, id, entry, at)
    {
      var window := WindowEntry(provider);
      window.Finish(id, Some(entry), at);
    }

    method Admissible(backend: Backend, estimate: u64, at: real) returns (admitted: bool)
      ensures admitted <==> Attempts.CanAdmit(Value(), backend, estimate, at)
    {
      var policy := Policy(backend);
      if backend.id in budgets {
        admitted := budgets[backend.id].CanAdmit(policy, estimate, at);
      } else {
        admitted := estimate <= policy.hard;
      }
    }

    /** The counters of a guard that begins. */
    method CountBegin(id: string, counter: nat, ghost guard: Guard)
      modifies this`counters, this`stats, this`live
      ensures counters == old(counters)[counter := Started(CountsOf(old(counters), counter))]
      ensures stats == Started(old(stats)) && live == old(live)[id := guard]
    {
      counters := counters[counter := Started(CountsOf(counters, counter))];
      stats := Started(stats);
      live := live[id := guard];
    }

    /** The accounting half of an admitted attempt. */
    method Admit(id: string, backend: Backend, reserved: u64, at: real)
      requires Valid() && id !in live
      modifies this, budgets.Values
      ensures Valid() && fresh(budgets.Values - old(budgets.Values))
      ensures Value() == Began(old(Value()), id, backend, reserved, at)
    {
      Reserve(backend.id, id, reserved, at);
      ghost var windows := Windows();
      CountBegin(id, backend.counter, Guard(backend.id, backend.counter, reserved, None));
      assert Windows() == windows;
    }

    /** The counters of a settled guard, and the history. */
    method CountEnd(id: string, guard: Guard, outcome: Outcome, ghost settlement: Settlement)
      modifies this`counters, this`stats, this`live, this`settled
      ensures counters == old(counters)[guard.counter := Ended(CountsOf(old(counters), guard.counter), outcome)]
      ensures stats == Ended(old(stats), outcome)
      ensures live == old(live) - {id} && settled == old(settled) + [settlement]
    {
      counters := counters[guard.counter := Ended(CountsOf(counters, guard.counter), outcome)];
      stats := Ended(stats, outcome);
      live := live - {id};
      settled := settled + [settlement];
    }

    /** The accounting half of settling a guard. */
    method Release(id: string, guard: Guard, outcome: Outcome, usage: Option<Usage>, at: real)
      requires Valid() && id in live && live[id] == guard
      modifies this, budgets.Values
      ensures Valid() && fresh(budgets.Values - old(budgets.Values))
      ensures Value() == Ending(old(Value()), id, outcome, usage, at)
    {
      var entry := Charge(id, guard, usage, at);
      Finish(guard.provider, id, entry, at);
      ghost var windows := Windows();
      CountEnd(id, guard, outcome, Settlement(guard, outcome, usage, entry));
      assert Windows() == windows;
    }

    method Skip()
      modifies this`budgetSkips
      ensures Valid() == old(Valid()) && Value() == old(Value()).(budgetSkips := old(budgetSkips) + 1)
    {
      ghost var windows := Windows();
      budgetSkips := budgetSkips + 1;
      assert Windows() == windows;
    }

    method Begin(id: string, backend: Backend, routeKnown: bool, reserved: u64, at: real)
      returns (result: Result<AttemptGuard, Rejected>)
      requires Valid() && Enabled(Value(), Step.Begin(id, backend, routeKnown, reserved, at))
      modifies this, budgets.Values
      ensures Valid() && fresh(budgets.Values - old(budgets.Values))
      ensures Value() == Next(old(Value()), Step.Begin(id, backend, routeKnown, reserved, at))
      ensures result == Err(RouteUnavailable) <==> !routeKnown
      ensures result == Err(TokenBudgetExceeded) <==>
                routeKnown && !old(Attempts.CanAdmit(Value(), backend, reserved, at))
      ensures result.Ok? ==>
                fresh(result.value) && !result.value.finished && result.value.id == id && result.value.Holds(this)
    {
      if !routeKnown {
        return Err(RouteUnavailable);
      }
      var admitted := Admissible(backend, reserved, at);
      if !admitted {
        Skip();
        return Err(TokenBudgetExceeded);
      }
      Admit(id, backend, reserved, at);
      var guard := new AttemptGuard(id, backend.id, backend.counter, reserved);
      result := Ok(guard);
    }

    method Reload(settings: seq<Settings>)
      requires Valid()
      modifies this`config, this`counters, this`nextCounter
      ensures Valid() && Value() == Next(old(Value()), Step.Reload(settings))
    {
      var loaded := Load(settings, config, nextCounter);
      Configure(loaded, Allocate(counters, loaded), nextCounter + |settings|);
    }

    /** Replace the configuration and its counters; no window changes. */
    method Configure(config': seq<Backend>, counters': map<nat, Counts>, next: nat)
      modifies this`config, this`counters, this`nextCounter
      ensures Valid() == old(Valid())
      ensures Value() == old(Value()).(config := config', counters := counters', nextCounter := next)
    {
      ghost var windows := Windows();
      config, counters, nextCounter := config', counters', next;
      assert Windows() == windows;
    }
  }

  /** One more settlement, of the attempt `id`. */
  ghost predicate SettledNext(before: seq<Settlement>, after: seq<Settlement>, id: string, outcome: Outcome,
                              usage: Option<Usage>)
  {
    && |after| == |before| + 1 && before == after[..|before|]
    && var x := after[|before|]; x.entry.id == id && x.outcome == outcome && x.usage == usage
  }

  class AttemptGuard {
    const id: string
    const provider: string
    const counter: nat
    const reserved: u64
    var status: Option<nat>
    var finished: bool

    constructor (id: string, provider: string, counter: nat, reserved: u64)
      ensures this.id == id && Value() == Guard(provider, counter, reserved, None) && !finished
    {
      this.id, this.provider, this.counter, this.reserved := id, provider, counter, reserved;
      status, finished := None, false;
    }

    function Value(): Guard
      reads this
    {
      Guard(provider, counter, reserved, status)
    }

    /** An unfinished guard is one of the live ones. */
    ghost predicate Holds(inner: Inner)
      reads this, inner
    {
      !finished ==> id in inner.live && inner.live[id] == Value()
    }

    method SetStatus(inner: Inner, code: nat)
      requires Holds(inner) && !finished
      modifies this`status, inner`live, inner`statuses, inner`answers
      ensures Holds(inner) && status == Some(code)
      ensures inner.Value() == Next(old(inner.Value()), Step.Status(id, code))
    {
      status := Some(code);
      inner.live := inner.live[id := Value()];
      var answer := Answer(counter, code);
      inner.statuses := inner.statuses[answer := StatusCount(inner.statuses, answer) + 1];
      inner.answers := inner.answers + [answer];
    }

    /** Settling releases the reservation and charges the attempt once; a second call does nothing. */
    method Finish(inner: Inner, outcome: Outcome, usage: Option<Usage>, at: real)
      requires inner.Valid() && Holds(inner)
      modifies this`finished, inner, inner.budgets.Values
      ensures finished && inner.Valid() && fresh(inner.budgets.Values - old(inner.budgets.Values))
      ensures inner.Value() == if old(finished) then old(inner.Value())
                               else Next(old(inner.Value()), Step.Settle(id, outcome, usage, at))
      ensures !old(finished) ==> id !in inner.live && SettledNext(old(inner.settled), inner.settled, id, outcome, usage)
    {
      if finished {
        return;
      }
      finished := true;
      inner.Release(id, Value(), outcome, usage, at);
    }

    /** A guard that goes out of scope settles as a disconnected client, unless it has settled. */
    method Drop(inner: Inner, at: real)
      requires inner.Valid() && Holds(inner)
      modifies this`finished, inner, inner.budgets.Values
      ensures finished && inner.Valid() && fresh(inner.budgets.Values - old(inner.budgets.Values))
      ensures inner.Value() == if old(finished) then old(inner.Value())
                               else Next(old(inner.Value()), Step.Settle(id, ClientDisconnected, None, at))
      ensures if old(finished) then inner.settled == old(inner.settled)
              else SettledNext(old(inner.settled), inner.settled, id, ClientDisconnected, None)
    {
      if !finished {
        Finish(inner, ClientDisconnected, None, at);
      }
    }
  }
}
