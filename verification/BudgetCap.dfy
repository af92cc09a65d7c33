/**
 * The hard token limit over whole runs of attempts.
 *
 * `Attempts` gives the steps; here a provider's window is followed through a
 * run and compared with the log of everything ever charged to it.
 */
module BudgetCap {
  import opened Prelude
  import opened TokenBudget
  import opened Config
  import opened Attempts

  predicate Timed(step: Step) {
    step.Begin? || step.Settle?
  }

  /** The latest clock reading of a run that starts at `start`. */
  function Latest(steps: seq<Step>, start: real): real {
    if steps == [] then start
    else
      var last := steps[|steps| - 1];
      var before := Latest(steps[..|steps| - 1], start);
      if Timed(last) then Max(before, last.at) else before
  }

  /**
   * What a clock that never goes back guarantees although it is read before
   * the lock is taken: an attempt is settled no earlier than any reading up to
   * its beginning. Readings of contending attempts may be out of lock order.
   */
  ghost predicate Causal(steps: seq<Step>, start: real) {
    forall m, n :: 0 <= m < n < |steps| && steps[m].Begin? && steps[n].Settle? && steps[m].id == steps[n].id ==>
      steps[n].at >= Latest(steps[..m + 1], start)
  }

  /** The charges of settled attempts of one provider, in order. */
  function ChargesOf(settled: seq<Settlement>, provider: string): seq<BudgetEntry> {
    if settled == [] then []
    else
      var last := settled[|settled| - 1];
      ChargesOf(settled[..|settled| - 1], provider)
      + if last.guard.provider == provider && last.entry.tokens > 0 then [last.entry] else []
  }

  /** Everything ever charged to a provider: what was restored, then every settlement. */
  function ChargeLog(initial: State, s: State, provider: string): seq<BudgetEntry> {
    WindowOf(initial.budgets, provider).entries + ChargesOf(s.settled, provider)
  }

  /** Tokens stamped in the sixty seconds that end at `until`. */
  function StampedWithin(entries: seq<BudgetEntry>, until: real): nat {
    if entries == [] then 0
    else
      var last := entries[|entries| - 1];
      StampedWithin(entries[..|entries| - 1], until)
      + if until - WINDOW_SECONDS < last.time <= until then last.tokens else 0
  }

  /**
   * A step the cap can rely on: limits in force for the provider do not
   * exceed `cap`, and no settlement charges more than was reserved.
   */
  ghost predicate Honest(s: State, step: Step, provider: string, cap: u64) {
    && (step.Begin? && step.backend.id == provider ==> PolicyFor(s.config, step.backend).hard <= cap)
    && (step.Settle? && step.id in s.live && s.live[step.id].provider == provider ==>
          Charge(step.id, s.live[step.id], step.usage, step.at).tokens <= s.live[step.id].reserved)
  }

  ghost predicate HonestRun(s: State, steps: seq<Step>, provider: string, cap: u64) {
    forall n :: 0 <= n < |steps| ==> Honest(Run(s, steps[..n]), steps[n], provider, cap)
  }

  lemma PrefixRun(s: State, steps: seq<Step>, provider: string, cap: u64)
    requires steps != [] && ValidRun(s, steps) && HonestRun(s, steps, provider, cap)
    ensures var init := steps[..|steps| - 1];
            && ValidRun(s, init) && HonestRun(s, init, provider, cap)
            && Enabled(Run(s, init), steps[|steps| - 1]) && Honest(Run(s, init), steps[|steps| - 1], provider, cap)
  {
    var init := steps[..|steps| - 1];
    assert forall n :: 0 <= n < |init| ==> init[..n] == steps[..n] && init[n] == steps[n];
  }

  // ---------------------------------------------------------------------
  // One step
  // ---------------------------------------------------------------------

  lemma SumOne(e: BudgetEntry)
    ensures Sum([e]) == e.tokens
  {
    assert [e][..0] == [];
  }

  /** An admitted reservation keeps the window within the limit from then on. */
  lemma ReserveWithinCap(w: Window, policy: Policy, id: string, tokens: u64, at: real, t: real)
    requires at <= t && id !in w.reservations && Admits(w, policy, tokens, at)
    ensures Occupied(Apply(w, Op.Reserve(id, tokens, at)), t) <= policy.hard
  {
    LiveOfLive(w.entries, at, t);
    OccupiedNeverRises(w, at, t);
    ReservedSumInsert(w.reservations, id, tokens);
  }

  /** Settling replaces a reservation by a charge of at most its size. */
  lemma FinishWithinCap(w: Window, id: string, entry: BudgetEntry, at: real, t: real)
    requires at <= t && id in w.reservations && entry.tokens <= w.reservations[id]
    ensures Occupied(Apply(w, Op.Finish(id, Some(entry), at)), t) <= Occupied(w, t)
  {
    var kept := Kept(Some(entry));
    LiveConcat(Live(w.entries, at), kept, t);
    LiveOfLive(w.entries, at, t);
    SumConcat(Live(w.entries, t), Live(kept, t));
    LiveShrinks(kept, t);
    SumOne(entry);
    ReservedSumRemove(w.reservations, id);
  }

  lemma StepWithinCap(s: State, step: Step, provider: string, cap: u64, t: real)
    requires Conserved(s) && Enabled(s, step) && Honest(s, step, provider, cap)
    requires Timed(step) ==> step.at <= t
    requires Occupied(WindowOf(s.budgets, provider), t) <= cap
    ensures Occupied(WindowOf(Next(s, step).budgets, provider), t) <= cap
  {
    var w := WindowOf(s.budgets, provider);
    assert ProviderMatches(s, provider);
    match step
    case Begin(id, backend, _, reserved, at) =>
      if backend.id == provider && Next(s, step) == Began(s, id, backend, reserved, at)
          && CanAdmit(s, backend, reserved, at) {
        EmptyAdmits(PolicyFor(s.config, backend), reserved, at);
        ReserveWithinCap(w, PolicyFor(s.config, backend), id, reserved, at, t);
      }
    case Settle(id, outcome, usage, at) =>
      if id in s.live && s.live[id].provider == provider {
        FinishWithinCap(w, id, Charge(id, s.live[id], usage, at), at, t);
      }
    case Status(_, _) =>
    case Reload(_) =>
  }

  /** A provider without a window admits what an empty window admits. */
  lemma EmptyAdmits(policy: Policy, estimate: u64, at: real)
    ensures Admits(EMPTY, policy, estimate, at) <==> estimate <= policy.hard
  {
  }

  // ---------------------------------------------------------------------
  // Whole runs
  // ---------------------------------------------------------------------

  /**
   * Whatever the interleaving of attempts, drops, reloads and time, and even
   * if single clock readings go backwards, usage, estimates and reservations
   * of a provider never exceed the limit once the latest reading is reached.
   */
  lemma {:induction false} OccupiedNeverExceedsCap(s: State, steps: seq<Step>, provider: string, cap: u64,
                                                   start: real, t: real)
    requires Initial(s) && ValidRun(s, steps) && HonestRun(s, steps, provider, cap)
    requires Occupied(WindowOf(s.budgets, provider), start) <= cap
    requires t >= Latest(steps, start)
    ensures Occupied(WindowOf(Run(s, steps).budgets, provider), t) <= cap
    decreases |steps|
  {
    if steps == [] {
      OccupiedNeverRises(WindowOf(s.budgets, provider), start, t);
    } else {
      var init := steps[..|steps| - 1];
      PrefixRun(s, steps, provider, cap);
      OccupiedNeverExceedsCap(s, init, provider, cap, start, t);
      ReachableIsConserved(s, init);
      StepWithinCap(Run(s, init), steps[|steps| - 1], provider, cap, t);
    }
  }

  /** What a step adds to the charges of a provider. */
  function Added(s: State, step: Step, provider: string): seq<BudgetEntry> {
    if step.Settle? && step.id in s.live && s.live[step.id].provider == provider then
      var charge := Charge(step.id, s.live[step.id], step.usage, step.at);
      if charge.tokens > 0 then [charge] else []
    else []
  }

  lemma ChargeLogStep(initial: State, s: State, step: Step, provider: string)
    ensures ChargeLog(initial, Next(s, step), provider) == ChargeLog(initial, s, provider) + Added(s, step, provider)
  {
    if step.Settle? && step.id in s.live {
      var settled := Next(s, step).settled;
      assert settled[..|settled| - 1] == s.settled;
    }
  }

  lemma WindowStep(s: State, step: Step, provider: string, t: real)
    requires Timed(step) ==> step.at <= t
    ensures Live(WindowOf(Next(s, step).budgets, provider).entries, t)
            == Live(WindowOf(s.budgets, provider).entries, t) + Live(Added(s, step, provider), t)
  {
    var entries, added := WindowOf(s.budgets, provider).entries, Added(s, step, provider);
    var after := WindowOf(Next(s, step).budgets, provider).entries;
    if after == entries && added == [] {
    } else if step.Begin? {
      assert after == Live(entries, step.at);
      LiveOfLive(entries, step.at, t);
    } else {
      assert after == Live(entries, step.at) + added;
      LiveConcat(Live(entries, step.at), added, t);
      LiveOfLive(entries, step.at, t);
    }
  }

  /** The window shows exactly the unexpired part of everything ever charged. */
  lemma {:induction false} WindowShowsChargeLog(s: State, steps: seq<Step>, provider: string, t: real)
    requires forall n :: 0 <= n < |steps| && Timed(steps[n]) ==> steps[n].at <= t
    requires s.settled == []
    ensures Live(WindowOf(Run(s, steps).budgets, provider).entries, t) == Live(ChargeLog(s, Run(s, steps), provider), t)
    decreases |steps|
  {
    if steps == [] {
      assert ChargeLog(s, s, provider) == WindowOf(s.budgets, provider).entries;
    } else {
      var init, step := steps[..|steps| - 1], steps[|steps| - 1];
      WindowShowsChargeLog(s, init, provider, t);
      ChargeLogStep(s, Run(s, init), step, provider);
      WindowStep(Run(s, init), step, provider, t);
      LiveConcat(ChargeLog(s, Run(s, init), provider), Added(Run(s, init), step, provider), t);
    }
  }

  lemma {:induction false} StampedAtMostLive(entries: seq<BudgetEntry>, until: real)
    ensures StampedWithin(entries, until) <= Sum(Live(entries, until))
  {
    if entries == [] {
    } else {
      var init, last := entries[..|entries| - 1], entries[|entries| - 1];
      StampedAtMostLive(init, until);
      SumConcat(Live(init, until), if IsLive(last, until) then [last] else []);
      SumOne(last);
    }
  }

  lemma {:induction false} StampedLater(log: seq<BudgetEntry>, added: seq<BudgetEntry>, until: real)
    requires |added| <= 1 && forall e :: e in added ==> e.time > until
    ensures StampedWithin(log + added, until) == StampedWithin(log, until)
  {
    if added == [] {
      assert log + added == log;
    } else {
      assert (log + added)[..|log|] == log;
      assert added[0] in added;
    }
  }

  lemma {:induction false} LatestBounds(steps: seq<Step>, start: real)
    ensures Latest(steps, start) >= start
    ensures forall n :: 0 <= n < |steps| && Timed(steps[n]) ==> steps[n].at <= Latest(steps, start)
  {
    if steps == [] {
    } else {
      LatestBounds(steps[..|steps| - 1], start);
    }
  }

  // ---------------------------------------------------------------------
  // Every minute
  // ---------------------------------------------------------------------

  /** The attempts still live of those that had begun when the readings last were at or before `until`. */
  ghost function Early(s: State, steps: seq<Step>, until: real, start: real): set<string> {
    if Latest(steps, start) <= until || steps == [] then Run(s, steps).live.Keys
    else
      var last := steps[|steps| - 1];
      Early(s, steps[..|steps| - 1], until, start) - if last.Settle? then {last.id} else {}
  }

  /** The reservations some of the live attempts hold with one provider. */
  ghost function HeldBy(live: map<string, Guard>, ids: set<string>, provider: string): map<string, u64> {
    map id | id in live && id in ids && live[id].provider == provider :: live[id].reserved
  }

  /** Every live attempt that is not early began after a reading later than `until`. */
  ghost predicate LateOnes(live: map<string, Guard>, early: set<string>, steps: seq<Step>, until: real, start: real) {
    forall id :: id in live && id !in early ==> BeganLate(steps, id, until, start)
  }

  ghost predicate BeganLate(steps: seq<Step>, id: string, until: real, start: real) {
    exists m :: 0 <= m < |steps| && steps[m].Begin? && steps[m].id == id && Latest(steps[..m + 1], start) > until
  }

  lemma BeganLateStays(steps: seq<Step>, id: string, until: real, start: real)
    requires steps != [] && BeganLate(steps[..|steps| - 1], id, until, start)
    ensures BeganLate(steps, id, until, start)
  {
    var init := steps[..|steps| - 1];
    var m :| 0 <= m < |init| && init[m].Begin? && init[m].id == id && Latest(init[..m + 1], start) > until;
    assert init[..m + 1] == steps[..m + 1] && steps[m] == init[m];
  }

  lemma BeganNow(steps: seq<Step>, until: real, start: real)
    requires steps != [] && steps[|steps| - 1].Begin? && Latest(steps, start) > until
    ensures BeganLate(steps, steps[|steps| - 1].id, until, start)
  {
    assert steps[..|steps|] == steps;
  }

  /** An attempt that is not early is charged after `until`. */
  lemma LateSettlesLate(steps: seq<Step>, id: string, until: real, start: real)
    requires steps != [] && Causal(steps, start) && steps[|steps| - 1].Settle? && steps[|steps| - 1].id == id
    requires BeganLate(steps[..|steps| - 1], id, until, start)
    ensures steps[|steps| - 1].at > until
  {
    var init := steps[..|steps| - 1];
    var m :| 0 <= m < |init| && init[m].Begin? && init[m].id == id && Latest(init[..m + 1], start) > until;
    assert init[..m + 1] == steps[..m + 1] && steps[m] == init[m];
  }

  lemma CausalPrefix(steps: seq<Step>, start: real)
    requires steps != [] && Causal(steps, start)
    ensures Causal(steps[..|steps| - 1], start)
  {
    var init := steps[..|steps| - 1];
    forall m, n | 0 <= m < n < |init| && init[m].Begin? && init[n].Settle? && init[m].id == init[n].id
      ensures init[n].at >= Latest(init[..m + 1], start)
    {
      assert init[..m + 1] == steps[..m + 1] && init[m] == steps[m] && init[n] == steps[n];
    }
  }

  lemma StampedNext(log: seq<BudgetEntry>, added: seq<BudgetEntry>, until: real)
    requires |added| <= 1
    ensures StampedWithin(log + added, until) <= StampedWithin(log, until) + Sum(added)
  {
    if added == [] {
      assert log + added == log;
    } else {
      assert (log + added)[..|log|] == log;
      assert added == [added[0]];
      SumOne(added[0]);
    }
  }

  /** What is charged by `until` and what early attempts may still charge. */
  ghost function Exposure(log: seq<BudgetEntry>, live: map<string, Guard>, early: set<string>, provider: string,
                          until: real): nat {
    StampedWithin(log, until) + ReservedSum(HeldBy(live, early, provider))
  }

  /** At the last moment all readings are at or before `until`, the window accounts for all of it. */
  lemma ExposureAtFirst(s: State, steps: seq<Step>, provider: string, cap: u64, start: real, until: real)
    requires Initial(s) && ValidRun(s, steps) && HonestRun(s, steps, provider, cap)
    requires Occupied(WindowOf(s.budgets, provider), start) <= cap && until >= Latest(steps, start)
    ensures var end := Run(s, steps);
            Exposure(ChargeLog(s, end, provider), end.live, end.live.Keys, provider, until) <= cap
  {
    var end := Run(s, steps);
    LatestBounds(steps, start);
    OccupiedNeverExceedsCap(s, steps, provider, cap, start, until);
    WindowShowsChargeLog(s, steps, provider, until);
    StampedAtMostLive(ChargeLog(s, end, provider), until);
    ReachableIsConserved(s, steps);
    assert ProviderMatches(end, provider);
    assert HeldBy(end.live, end.live.Keys, provider) == Reservations(end.live, provider);
  }

  /** A settlement moves at most an early reservation into the charges; a late one is stamped later. */
  lemma ExposureAfterSettle(log: seq<BudgetEntry>, live: map<string, Guard>, early: set<string>, id: string,
                            entry: BudgetEntry, provider: string, until: real)
    requires id in live && early <= live.Keys
    requires live[id].provider == provider && entry.tokens <= live[id].reserved && (id in early || entry.time > until)
    ensures Exposure(log + Kept(Some(entry)), live - {id}, early - {id}, provider, until)
            <= Exposure(log, live, early, provider, until)
  {
    var held, added := HeldBy(live, early, provider), Kept(Some(entry));
    assert HeldBy(live - {id}, early - {id}, provider) == held - {id};
    if id in early {
      ReservedSumRemove(held, id);
      StampedNext(log, added, until);
      SumOne(entry);
    } else {
      StampedLater(log, added, until);
      assert held - {id} == held;
    }
  }

  lemma HeldUnmoved(s: State, step: Step, early: set<string>, provider: string)
    requires Enabled(s, step) && early <= s.live.Keys
    requires step.Settle? && step.id in s.live ==> s.live[step.id].provider != provider
    ensures var rest := early - if step.Settle? then {step.id} else {};
            && rest <= Next(s, step).live.Keys
            && HeldBy(Next(s, step).live, rest, provider) == HeldBy(s.live, early, provider)
  {
    if step.Settle? {
      HeldByOthers(s.live, early, step.id, provider);
    } else {
      HeldByPut(s.live, Next(s, step).live, early, provider);
    }
  }

  lemma HeldByOthers(live: map<string, Guard>, early: set<string>, id: string, provider: string)
    requires id in live ==> live[id].provider != provider
    ensures HeldBy(live - {id}, early - {id}, provider) == HeldBy(live, early, provider)
    ensures HeldBy(live, early - {id}, provider) == HeldBy(live, early, provider)
  {
  }

  lemma HeldByPut(live: map<string, Guard>, after: map<string, Guard>, early: set<string>, provider: string)
    requires early <= live.Keys <= after.Keys
    requires forall id :: id in live ==>
              after[id].provider == live[id].provider && after[id].reserved == live[id].reserved
    ensures HeldBy(after, early, provider) == HeldBy(live, early, provider)
  {
  }

  /** A step that charges the provider nothing leaves the exposure as it is. */
  lemma ExposureUnmoved(initial: State, s: State, step: Step, early: set<string>, provider: string, until: real)
    requires Enabled(s, step) && early <= s.live.Keys
    requires step.Settle? && step.id in s.live ==> s.live[step.id].provider != provider
    ensures var rest := early - if step.Settle? then {step.id} else {};
            && rest <= Next(s, step).live.Keys
            && Exposure(ChargeLog(initial, Next(s, step), provider), Next(s, step).live, rest, provider, until)
               == Exposure(ChargeLog(initial, s, provider), s.live, early, provider, until)
  {
    HeldUnmoved(s, step, early, provider);
    ChargeLogStep(initial, s, step, provider);
    assert Added(s, step, provider) == [];
    assert ChargeLog(initial, s, provider) + [] == ChargeLog(initial, s, provider);
  }

  /** One step beyond `until` never raises the exposure. */
  lemma ExposureStep(initial: State, s: State, step: Step, early: set<string>, provider: string, cap: u64, until: real)
    requires Enabled(s, step) && Honest(s, step, provider, cap) && early <= s.live.Keys
    requires step.Settle? && step.id in s.live && step.id !in early ==> step.at > until
    ensures var rest := early - if step.Settle? then {step.id} else {};
            && rest <= Next(s, step).live.Keys
            && Exposure(ChargeLog(initial, Next(s, step), provider), Next(s, step).live, rest, provider, until)
               <= Exposure(ChargeLog(initial, s, provider), s.live, early, provider, until)
  {
    if step.Settle? && step.id in s.live && s.live[step.id].provider == provider {
      var entry := Charge(step.id, s.live[step.id], step.usage, step.at);
      ChargeLogStep(initial, s, step, provider);
      ExposureAfterSettle(ChargeLog(initial, s, provider), s.live, early, step.id, entry, provider, until);
    } else {
      ExposureUnmoved(initial, s, step, early, provider, until);
    }
  }

  /** Attempts that are not early stay so, and new ones are not early. */
  lemma LateOnesStay(s: State, steps: seq<Step>, until: real, start: real)
    requires steps != [] && Latest(steps, start) > until
    requires LateOnes(Run(s, steps[..|steps| - 1]).live, Early(s, steps[..|steps| - 1], until, start),
                      steps[..|steps| - 1], until, start)
    ensures LateOnes(Run(s, steps).live, Early(s, steps, until, start), steps, until, start)
  {
    var before := Run(s, steps[..|steps| - 1]);
    forall id | id in Run(s, steps).live && id !in Early(s, steps, until, start)
      ensures BeganLate(steps, id, until, start)
    {
      if id in before.live {
        BeganLateStays(steps, id, until, start);
      } else {
        BeganNow(steps, until, start);
      }
    }
  }

  lemma {:induction false} ExposureStays(s: State, steps: seq<Step>, provider: string, cap: u64, start: real,
                                         until: real)
    requires Initial(s) && ValidRun(s, steps) && HonestRun(s, steps, provider, cap) && Causal(steps, start)
    requires Occupied(WindowOf(s.budgets, provider), start) <= cap && until >= start
    ensures var end, early := Run(s, steps), Early(s, steps, until, start);
            && early <= end.live.Keys && LateOnes(end.live, early, steps, until, start)
            && Exposure(ChargeLog(s, end, provider), end.live, early, provider, until) <= cap
    decreases |steps|
  {
    if Latest(steps, start) <= until {
      ExposureAtFirst(s, steps, provider, cap, start, until);
    } else {
      var init, step := steps[..|steps| - 1], steps[|steps| - 1];
      var before, early := Run(s, init), Early(s, init, until, start);
      PrefixRun(s, steps, provider, cap);
      CausalPrefix(steps, start);
      ExposureStays(s, init, provider, cap, start, until);
      if step.Settle? && step.id in before.live && step.id !in early {
        LateSettlesLate(steps, step.id, until, start);
      }
      ExposureStep(s, before, step, early, provider, cap, until);
      LateOnesStay(s, steps, until, start);
    }
  }

  /**
   * The charges stamped in any sixty-second interval that ends at or after the
   * start never sum above the limit, in whatever order contending attempts get
   * the lock.
   */
  lemma NoMinuteExceedsCap(s: State, steps: seq<Step>, provider: string, cap: u64, start: real, until: real)
    requires Initial(s) && ValidRun(s, steps) && HonestRun(s, steps, provider, cap) && Causal(steps, start)
    requires Occupied(WindowOf(s.budgets, provider), start) <= cap && until >= start
    ensures StampedWithin(ChargeLog(s, Run(s, steps), provider), until) <= cap
  {
    ExposureStays(s, steps, provider, cap, start, until);
  }
}
