/**
 * Restarting the proxy (src/proxy/telemetry.rs, `restore_token_budgets`, and
 * src/proxy/runtime.rs, `router`): the archived samples come back, and what
 * interrupted requests had reserved becomes a sample of the moment of restart.
 */
module Restart {
  import opened Prelude
  import opened TokenBudget
  import BudgetBounds

  /** One estimated sample for every reservation. */
  ghost function Interrupted(reservations: map<string, u64>, provider: string, at: real): seq<BudgetEntry>
    decreases |reservations|
  {
    if reservations == map[] then []
    else
      var id :| id in reservations;
      Interrupted(reservations - {id}, provider, at) + [BudgetEntry(id, provider, at, reservations[id], true)]
  }

  /** The window of a provider after a restart at `at`. */
  ghost function Restarted(w: Window, provider: string, at: real): Window {
    Window(SortByTime(Live(w.entries, at) + Interrupted(w.reservations, provider, at)), map[])
  }

  lemma {:induction false} InterruptedSum(reservations: map<string, u64>, provider: string, at: real, t: real)
    ensures Sum(Live(Interrupted(reservations, provider, at), t))
            == if at > t - WINDOW_SECONDS then ReservedSum(reservations) else 0
    decreases |reservations|
  {
    if reservations == map[] {
    } else {
      var id :| id in reservations
        && Interrupted(reservations, provider, at)
           == Interrupted(reservations - {id}, provider, at) + [BudgetEntry(id, provider, at, reservations[id], true)];
      var e := BudgetEntry(id, provider, at, reservations[id], true);
      InterruptedSum(reservations - {id}, provider, at, t);
      LiveAppend(Interrupted(reservations - {id}, provider, at), e, t);
      SumConcat(Live(Interrupted(reservations - {id}, provider, at), t), if IsLive(e, t) then [e] else []);
      assert [e][..0] == [];
      ReservedSumRemove(reservations, id);
    }
  }

  /**
   * A restart neither frees nor takes budget: at that moment the window counts
   * what it counted before, and while nothing else happens what interrupted
   * requests had reserved expires a minute later.
   */
  lemma RestartKeepsOccupied(w: Window, provider: string, at: real, t: real)
    requires t >= at
    ensures Occupied(Restarted(w, provider, at), t)
            == if t < at + WINDOW_SECONDS then Occupied(w, t) else Sum(Live(w.entries, t))
    ensures t >= at + WINDOW_SECONDS ==> Occupied(Restarted(w, provider, at), t) <= Occupied(w, t)
  {
    var live, interrupted := Live(w.entries, at), Interrupted(w.reservations, provider, at);
    LiveSumSort(live + interrupted, t);
    LiveConcat(live, interrupted, t);
    SumConcat(Live(live, t), Live(interrupted, t));
    LiveOfLive(w.entries, at, t);
    InterruptedSum(w.reservations, provider, at, t);
  }

  /** What a window holds stays bounded from one run of the proxy to the next. */
  lemma RestartStaysBounded(w: Window, provider: string, at: real)
    requires BudgetBounds.Held(w) <= BudgetBounds.MAX_HELD
    ensures BudgetBounds.Held(Restarted(w, provider, at)) <= BudgetBounds.MAX_HELD
    ensures Restarted(w, provider, at).reservations == map[]
  {
    var after := Restarted(w, provider, at);
    RestartKeepsOccupied(w, provider, at, at);
    AllAreLive(w, provider, at);
    BudgetBounds.OccupiedIsHeld(w, at);
  }

  lemma {:induction false} InterruptedAreLive(reservations: map<string, u64>, provider: string, at: real)
    ensures forall e :: e in Interrupted(reservations, provider, at) ==> IsLive(e, at)
    decreases |reservations|
  {
    if reservations == map[] {
    } else {
      var id :| id in reservations
        && Interrupted(reservations, provider, at)
           == Interrupted(reservations - {id}, provider, at) + [BudgetEntry(id, provider, at, reservations[id], true)];
      InterruptedAreLive(reservations - {id}, provider, at);
    }
  }

  /** No restored sample has expired. */
  lemma AllAreLive(w: Window, provider: string, at: real)
    ensures Live(Restarted(w, provider, at).entries, at) == Restarted(w, provider, at).entries
  {
    var restored := Live(w.entries, at) + Interrupted(w.reservations, provider, at);
    InterruptedAreLive(w.reservations, provider, at);
    LiveMembers(w.entries, at);
    SortByTimeSorts(restored);
    AllLive(SortByTime(restored), at);
  }
}
