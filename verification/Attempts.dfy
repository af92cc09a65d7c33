/**
 * Attempt accounting (src/proxy/runtime.rs, `Inner` and `AttemptGuard`).
 *
 * Requests begin attempts, learn an upstream status and settle in any
 * interleaving, while reloads replace the configuration. Each step below is
 * one critical section of the proxy; `live` holds the guards that have not
 * settled yet, `settled` the history of those that have and `answers` that of
 * all upstream statuses.
 */
module Attempts {
  import opened Prelude
  import opened TokenBudget
  import opened Config

  datatype Outcome = Completed | ClientDisconnected | UpstreamInterrupted | Failed

  datatype Counts = Counts(attempts: nat, inFlight: nat, completed: nat, cancelled: nat, interrupted: nat)

  const ZERO: Counts := Counts(0, 0, 0, 0, 0)

  datatype Guard = Guard(provider: string, counter: nat, reserved: u64, status: Option<nat>)

  datatype Settlement = Settlement(guard: Guard, outcome: Outcome, usage: Option<Usage>, entry: BudgetEntry)

  /** An upstream status as one provider incarnation counts it. */
  datatype Answer = Answer(counter: nat, code: nat)

  datatype State = State(
    config: seq<Backend>,
    budgets: map<string, Window>,
    counters: map<nat, Counts>,
    statuses: map<Answer, nat>,
    nextCounter: nat,
    stats: Counts,
    budgetSkips: nat,
    live: map<string, Guard>,
    settled: seq<Settlement>,
    answers: seq<Answer>)

  datatype Step =
    | Begin(id: string, backend: Backend, routeKnown: bool, reserved: u64, at: real)
    | Status(id: string, code: nat)
    | Settle(id: string, outcome: Outcome, usage: Option<Usage>, at: real)
    | Reload(settings: seq<Settings>)

  // ---------------------------------------------------------------------
  // The steps
  // ---------------------------------------------------------------------

  function WindowOf(budgets: map<string, Window>, provider: string): Window {
    if provider in budgets then budgets[provider] else EMPTY
  }

  function CountsOf(counters: map<nat, Counts>, counter: nat): Counts {
    if counter in counters then counters[counter] else ZERO
  }

  /** The limits in force: those of the current configuration, else the request's own. */
  function PolicyFor(config: seq<Backend>, backend: Backend): Policy {
    var current := Find(config, backend.id);
    if current.Some? then current.value.policy else backend.policy
  }

  ghost predicate CanAdmit(s: State, backend: Backend, estimate: u64, at: real) {
    var policy := PolicyFor(s.config, backend);
    if backend.id in s.budgets then Admits(s.budgets[backend.id], policy, estimate, at)
    else estimate <= policy.hard
  }

  function Started(c: Counts): Counts {
    c.(attempts := c.attempts + 1, inFlight := c.inFlight + 1)
  }

  /** One attempt leaves the counters; the decrement saturates at zero. */
  function Ended(c: Counts, outcome: Outcome): Counts {
    var c := c.(inFlight := if c.inFlight > 0 then c.inFlight - 1 else 0);
    match outcome
    case Completed => c.(completed := c.completed + 1)
    case ClientDisconnected => c.(cancelled := c.cancelled + 1)
    case UpstreamInterrupted => c.(interrupted := c.interrupted + 1)
    case Failed => c
  }

  predicate KnownRejection(status: Option<nat>) {
    status.Some? && !(200 <= status.value < 300)
  }

  function Charge(id: string, guard: Guard, usage: Option<Usage>, at: real): (entry: BudgetEntry)
    ensures entry.id == id && entry.provider == guard.provider && entry.time == at
    ensures entry.estimated <==> usage.None?
    ensures usage.Some? ==>
              entry.tokens >= usage.value.total && entry.tokens >= Clamp(usage.value.input + usage.value.output)
    ensures usage.Some? ==>
              entry.tokens == usage.value.total || entry.tokens == Clamp(usage.value.input + usage.value.output)
    ensures usage.None? && guard.status.Some? && !(200 <= guard.status.value < 300) ==> entry.tokens == 0
    ensures usage.None? && (guard.status.None? || 200 <= guard.status.value < 300) ==> entry.tokens == guard.reserved
  {
    BudgetEntry(id, guard.provider, at,
                match usage
                case Some(u) =>
                  var parts := SaturatingAdd(u.input, u.output);
                  if u.total >= parts then u.total else parts
                case None => if KnownRejection(guard.status) then 0 else guard.reserved,
                usage.None?)
  }

  function ReserveIn(budgets: map<string, Window>, provider: string, id: string, tokens: u64, at: real): map<string,
                     Window> {
    budgets[provider := Apply(WindowOf(budgets, provider), Op.Reserve(id, tokens, at))]
  }

  function FinishIn(budgets: map<string, Window>, provider: string, id: string, entry: BudgetEntry,
                    at: real): map<string, Window> {
    budgets[provider := Apply(WindowOf(budgets, provider), Op.Finish(id, Some(entry), at))]
  }

  /** An admitted attempt: capacity is reserved in the same critical section that checked it. */
  function Began(s: State, id: string, backend: Backend, reserved: u64, at: real): State {
    s.(budgets := ReserveIn(s.budgets, backend.id, id, reserved, at),
       counters := s.counters[backend.counter := Started(CountsOf(s.counters, backend.counter))],
       stats := Started(s.stats),
       live := s.live[id := Guard(backend.id, backend.counter, reserved, None)])
  }

  function Ending(s: State, id: string, outcome: Outcome, usage: Option<Usage>, at: real): State
    requires id in s.live
  {
    var guard := s.live[id];
    var entry := Charge(id, guard, usage, at);
    s.(budgets := FinishIn(s.budgets, guard.provider, id, entry, at),
       counters := s.counters[guard.counter := Ended(CountsOf(s.counters, guard.counter), outcome)],
       stats := Ended(s.stats, outcome),
       live := s.live - {id},
       settled := s.settled + [Settlement(guard, outcome, usage, entry)])
  }

  /** Counters for a configuration; those that exist already keep their values. */
  function Allocate(counters: map<nat, Counts>, config: seq<Backend>): (all: map<nat, Counts>)
    ensures forall c :: c in all <==> c in counters || exists b :: b in config && b.counter == c
    ensures forall c: nat :: CountsOf(all, c) == CountsOf(counters, c)
  {
    (map b | b in config :: b.counter := ZERO) + counters
  }

  function Reloaded(s: State, settings: seq<Settings>): State {
    var config := Load(settings, s.config, s.nextCounter);
    s.(config := config, nextCounter := s.nextCounter + |settings|,
       counters := Allocate(s.counters, config))
  }

  function StatusCount(statuses: map<Answer, nat>, answer: Answer): nat {
    if answer in statuses then statuses[answer] else 0
  }

  /** The guard learns its status, and the provider counts it. */
  function Answered(s: State, id: string, code: nat): State
    requires id in s.live
  {
    var answer := Answer(s.live[id].counter, code);
    s.(live := s.live[id := s.live[id].(status := Some(code))],
       statuses := s.statuses[answer := StatusCount(s.statuses, answer) + 1],
       answers := s.answers + [answer])
  }

  ghost function Next(s: State, step: Step): State {
    match step
    case Begin(id, backend, routeKnown, reserved, at) =>
      if !routeKnown then s
      else if !CanAdmit(s, backend, reserved, at) then s.(budgetSkips := s.budgetSkips + 1)
      else Began(s, id, backend, reserved, at)
    case Status(id, code) =>
      if id !in s.live then s
      else Answered(s, id, code)
    case Settle(id, outcome, usage, at) =>
      // A guard that has settled already does nothing; neither does its drop.
      if id !in s.live then s else Ending(s, id, outcome, usage, at)
    case Reload(settings) => Reloaded(s, settings)
  }

  // ---------------------------------------------------------------------
  // Admission
  // ---------------------------------------------------------------------

  lemma PolicyIsFound(config: seq<Backend>, backend: Backend)
    ensures forall n: nat :: IsFirst(config, backend.id, n) ==> PolicyFor(config, backend) == config[n].policy
    ensures (forall b :: b in config ==> b.id != backend.id) ==> PolicyFor(config, backend) == backend.policy
  {
    forall n: nat | IsFirst(config, backend.id, n) ensures PolicyFor(config, backend) == config[n].policy {
      FindIsFirst(config, backend.id, n);
    }
  }

  /** What counts in the window leaves room below the limit, and then for the estimate; no sum is cut off. */
  ghost predicate HasRoom(w: Window, hard: nat, estimate: nat, at: real) {
    Occupied(w, at) < hard && Occupied(w, at) + estimate <= hard
  }

  lemma AdmitsIsRoom(w: Window, policy: Policy, estimate: u64, at: real)
    ensures Admits(w, policy, estimate, at) <==> HasRoom(w, policy.hard, estimate, at)
  {
  }

  /**
   * A request is admitted exactly when its provider's window, an empty one if
   * there is none, has room for it: by the limit of the first configured
   * provider with its id, or by the limit the request knows if there is none.
   */
  lemma AdmissionIsExact(s: State, backend: Backend, estimate: u64, at: real)
    ensures forall n: nat :: IsFirst(s.config, backend.id, n) ==>
              (CanAdmit(s, backend, estimate, at) <==>
               HasRoom(WindowOf(s.budgets, backend.id), s.config[n].policy.hard, estimate, at))
    ensures (forall b :: b in s.config ==> b.id != backend.id) ==>
              (CanAdmit(s, backend, estimate, at) <==>
               HasRoom(WindowOf(s.budgets, backend.id), backend.policy.hard, estimate, at))
    ensures backend.id !in s.budgets ==> WindowOf(s.budgets, backend.id) == Window([], map[])
  {
    PolicyIsFound(s.config, backend);
    AdmitsIsRoom(WindowOf(s.budgets, backend.id), PolicyFor(s.config, backend), estimate, at);
  }

  /** The first request of a provider is admitted exactly when its estimate is at most the hard limit. */
  lemma FirstRequestIsAdmitted(s: State, backend: Backend, estimate: u64, at: real)
    requires backend.id !in s.budgets
    ensures forall n: nat :: IsFirst(s.config, backend.id, n) ==>
              (CanAdmit(s, backend, estimate, at) <==> estimate <= s.config[n].policy.hard)
  {
    AdmissionIsExact(s, backend, estimate, at);
    assert Occupied(EMPTY, at) == 0;
  }

  // ---------------------------------------------------------------------
  // What a step changes
  // ---------------------------------------------------------------------

  /** The windows of all other providers are the same. */
  ghost predicate OnlyWindowOf(a: map<string, Window>, b: map<string, Window>, provider: string) {
    forall p :: p != provider ==> WindowOf(a, p) == WindowOf(b, p)
  }

  /**
   * A rejected request changes nothing but the count of budget skips. An
   * admitted one has its estimate reserved, counts against its provider from
   * then on and is in flight; nothing is charged or settled.
   */
  lemma BeginChanges(s: State, id: string, backend: Backend, routeKnown: bool, reserved: u64, at: real, later: real)
    requires id !in WindowOf(s.budgets, backend.id).reservations && later >= at
    ensures var t := Next(s, Step.Begin(id, backend, routeKnown, reserved, at));
            var w, v := WindowOf(s.budgets, backend.id), WindowOf(t.budgets, backend.id);
            && (!routeKnown ==> t == s)
            && (routeKnown && !CanAdmit(s, backend, reserved, at) ==> t == s.(budgetSkips := s.budgetSkips + 1))
            && (routeKnown && CanAdmit(s, backend, reserved, at) ==>
                  && OnlyWindowOf(s.budgets, t.budgets, backend.id)
                  && v.reservations == w.reservations[id := reserved]
                  && Occupied(v, later) == Occupied(w, later) + reserved
                  && t.live == s.live[id := Guard(backend.id, backend.counter, reserved, None)]
                  && t.stats == s.stats.(attempts := s.stats.attempts + 1, inFlight := s.stats.inFlight + 1)
                  && t.config == s.config && t.nextCounter == s.nextCounter && t.budgetSkips == s.budgetSkips
                  && t.settled == s.settled && t.statuses == s.statuses && t.answers == s.answers)
  {
    var w := WindowOf(s.budgets, backend.id);
    LiveOfLive(w.entries, at, later);
    ReservedSumInsert(w.reservations, id, reserved);
  }

  /** A settlement ends one attempt, releases its reservation and adds its charge to the history. */
  lemma SettleChanges(s: State, id: string, outcome: Outcome, usage: Option<Usage>, at: real)
    requires id in s.live
    ensures var t := Next(s, Step.Settle(id, outcome, usage, at));
            var guard := s.live[id];
            && OnlyWindowOf(s.budgets, t.budgets, guard.provider)
            && WindowOf(t.budgets, guard.provider).reservations
               == WindowOf(s.budgets, guard.provider).reservations - {id}
            && t.live == s.live - {id}
            && t.settled == s.settled + [Settlement(guard, outcome, usage, Charge(id, guard, usage, at))]
            && t.config == s.config && t.nextCounter == s.nextCounter && t.budgetSkips == s.budgetSkips
            && t.statuses == s.statuses && t.answers == s.answers
  {
  }

  /** The charge of a settlement counts against its provider for a minute, and everything else as before. */
  lemma SettleCharges(s: State, id: string, outcome: Outcome, usage: Option<Usage>, at: real, later: real)
    requires id in s.live && later >= at
    ensures var t := Next(s, Step.Settle(id, outcome, usage, at));
            var provider := s.live[id].provider;
            Sum(Live(WindowOf(t.budgets, provider).entries, later))
            == Sum(Live(WindowOf(s.budgets, provider).entries, later))
               + if later - at < WINDOW_SECONDS then Charge(id, s.live[id], usage, at).tokens else 0
  {
    var t, charge := Next(s, Step.Settle(id, outcome, usage, at)), Charge(id, s.live[id], usage, at);
    var entries := WindowOf(s.budgets, s.live[id].provider).entries;
    assert WindowOf(t.budgets, s.live[id].provider).entries == Live(entries, at) + Kept(Some(charge));
    SettledWindow(entries, charge, at, later);
  }

  lemma SettledWindow(entries: seq<BudgetEntry>, charge: BudgetEntry, at: real, later: real)
    requires charge.time == at <= later
    ensures Sum(Live(Live(entries, at) + Kept(Some(charge)), later))
            == Sum(Live(entries, later)) + (if later - at < WINDOW_SECONDS then charge.tokens else 0)
  {
    var kept := Kept(Some(charge));
    LiveConcat(Live(entries, at), kept, later);
    LiveOfLive(entries, at, later);
    SumConcat(Live(entries, later), Live(kept, later));
    assert [charge][..0] == [];
    assert kept != [] ==> kept[..0] == [] && kept == [charge];
  }

  /** A status is noted on its guard and counted once; nothing else changes. */
  lemma StatusChanges(s: State, id: string, code: nat)
    requires id in s.live
    ensures var t := Next(s, Status(id, code));
            && t.live == s.live[id := s.live[id].(status := Some(code))]
            && t.answers == s.answers + [Answer(s.live[id].counter, code)]
            && t == s.(live := t.live, statuses := t.statuses, answers := t.answers)
  {
  }

  /** A reload gives the new settings their counters by id and changes nothing that was counted or charged. */
  lemma ReloadChanges(s: State, settings: seq<Settings>)
    ensures var t := Next(s, Step.Reload(settings));
            && t.config == Load(settings, s.config, s.nextCounter) && t.nextCounter == s.nextCounter + |settings|
            && (forall c: nat :: CountsOf(t.counters, c) == CountsOf(s.counters, c))
            && t == s.(config := t.config, nextCounter := t.nextCounter, counters := t.counters)
  {
  }

  // ---------------------------------------------------------------------
  // Runs
  // ---------------------------------------------------------------------

  /** Attempt ids are random identifiers that never repeat; a request only uses a backend some load made. */
  ghost predicate Enabled(s: State, step: Step) {
    step.Begin? ==>
      && step.id !in s.live
      && (forall i :: 0 <= i < |s.settled| ==> s.settled[i].entry.id != step.id)
      && step.backend.counter in s.counters
  }

  ghost function Run(s: State, steps: seq<Step>): State {
    if steps == [] then s else Next(Run(s, steps[..|steps| - 1]), steps[|steps| - 1])
  }

  ghost predicate ValidRun(s: State, steps: seq<Step>) {
    forall n :: 0 <= n < |steps| ==> Enabled(Run(s, steps[..n]), steps[n])
  }

  /** The proxy after start-up: windows restored from the archive, nothing in flight. */
  ghost predicate Initial(s: State) {
    && s.live == map[] && s.settled == [] && s.stats == ZERO && s.statuses == map[] && s.answers == []
    && (forall p :: p in s.budgets ==> s.budgets[p].reservations == map[])
    && (forall c :: c in s.counters ==> s.counters[c] == ZERO && c < s.nextCounter)
    && (forall b :: b in s.config ==> b.counter in s.counters)
  }

  // ---------------------------------------------------------------------
  // Conservation
  // ---------------------------------------------------------------------

  /** The reservations the live guards of one provider hold. */
  ghost function Reservations(live: map<string, Guard>, provider: string): map<string, u64> {
    map id | id in live && live[id].provider == provider :: live[id].reserved
  }

  ghost function LiveOn(live: map<string, Guard>, counter: nat): set<string> {
    set id | id in live && live[id].counter == counter
  }

  ghost function SettledOn(settled: seq<Settlement>, counter: nat): nat {
    if settled == [] then 0
    else SettledOn(settled[..|settled| - 1], counter)
         + if settled[|settled| - 1].guard.counter == counter then 1 else 0
  }

  /** Settlements with one outcome, of all providers or on one counter. */
  ghost function SettledAs(settled: seq<Settlement>, counter: Option<nat>, outcome: Outcome): nat {
    if settled == [] then 0
    else
      var last := settled[|settled| - 1];
      SettledAs(settled[..|settled| - 1], counter, outcome)
      + if last.outcome == outcome && (counter.Some? ==> last.guard.counter == counter.value) then 1 else 0
  }

  /** How often a provider incarnation answered with a status. */
  ghost function AnswersOf(answers: seq<Answer>, answer: Answer): nat {
    if answers == [] then 0
    else AnswersOf(answers[..|answers| - 1], answer) + if answers[|answers| - 1] == answer then 1 else 0
  }

  /** Windows hold exactly the reservations of the live guards. */
  ghost predicate ReservationsMatch(s: State) {
    forall p: string :: ProviderMatches(s, p)
  }

  /** Completed, cancelled and interrupted attempts are the settlements with these outcomes. */
  ghost predicate OutcomesMatch(counts: Counts, settled: seq<Settlement>, counter: Option<nat>) {
    && counts.completed == SettledAs(settled, counter, Completed)
    && counts.cancelled == SettledAs(settled, counter, ClientDisconnected)
    && counts.interrupted == SettledAs(settled, counter, UpstreamInterrupted)
  }

  ghost predicate CounterMatches(counters: map<nat, Counts>, live: map<string, Guard>, settled: seq<Settlement>,
                                 c: nat)
  {
    && CountsOf(counters, c).inFlight == |LiveOn(live, c)|
    && CountsOf(counters, c).attempts == |LiveOn(live, c)| + SettledOn(settled, c)
    && OutcomesMatch(CountsOf(counters, c), settled, Some(c))
  }

  /** The global counters and those of every provider incarnation agree with what happened. */
  ghost predicate CountsMatch(s: State) {
    && s.stats.inFlight == |s.live|
    && s.stats.attempts == |s.live| + |s.settled|
    && OutcomesMatch(s.stats, s.settled, None)
    && forall c: nat :: CounterMatches(s.counters, s.live, s.settled, c)
  }

  /** Counters of a new incarnation are never those of an earlier one. */
  ghost predicate CountersFresh(s: State) {
    && (forall c :: c in s.counters ==> c < s.nextCounter)
    && (forall b :: b in s.config ==> b.counter in s.counters)
    && (forall id :: id in s.live ==> s.live[id].counter in s.counters)
  }

  /** Every attempt is either live or settled, and settled at most once, by the charging rule. */
  ghost predicate ChargedOnce(s: State) {
    && (forall i :: 0 <= i < |s.settled| ==> s.settled[i].entry.id !in s.live)
    && (forall i, j :: 0 <= i < j < |s.settled| ==> s.settled[i].entry.id != s.settled[j].entry.id)
    && (forall i :: 0 <= i < |s.settled| ==>
          var x := s.settled[i];
          x.entry == Charge(x.entry.id, x.guard, x.usage, x.entry.time))
  }

  /** Every status is counted for the provider incarnation that answered. */
  ghost predicate StatusesMatch(s: State) {
    forall answer :: StatusCount(s.statuses, answer) == AnswersOf(s.answers, answer)
  }

  ghost predicate Conserved(s: State) {
    ReservationsMatch(s) && CountsMatch(s) && CountersFresh(s) && ChargedOnce(s) && StatusesMatch(s)
  }

  lemma LiveAdd(live: map<string, Guard>, id: string, g: Guard, p: string, c: nat)
    requires id !in live
    ensures Reservations(live[id := g], p) ==
            if g.provider == p then Reservations(live, p)[id := g.reserved] else Reservations(live, p)
    ensures LiveOn(live[id := g], c) == if g.counter == c then LiveOn(live, c) + {id} else LiveOn(live, c)
  {
  }

  lemma LiveDrop(live: map<string, Guard>, id: string, p: string, c: nat)
    requires id in live
    ensures Reservations(live - {id}, p) == Reservations(live, p) - {id}
    ensures LiveOn(live - {id}, c) == LiveOn(live, c) - {id}
    ensures id in LiveOn(live, c) <==> live[id].counter == c
    ensures |live - {id}| == |live| - 1
    ensures live[id].provider != p ==> Reservations(live, p) - {id} == Reservations(live, p)
  {
    assert (live - {id}).Keys == live.Keys - {id};
  }

  lemma SettledOnAppend(settled: seq<Settlement>, x: Settlement, c: nat)
    ensures SettledOn(settled + [x], c) == SettledOn(settled, c) + if x.guard.counter == c then 1 else 0
  {
    assert (settled + [x])[..|settled|] == settled;
  }

  /** A settlement adds one to the count of its outcome only. */
  lemma OutcomesAppend(counts: Counts, settled: seq<Settlement>, x: Settlement, counter: Option<nat>)
    requires OutcomesMatch(counts, settled, counter)
    ensures OutcomesMatch(if counter.None? || counter.value == x.guard.counter then Ended(counts, x.outcome)
                          else counts,
                          settled + [x], counter)
  {
    assert (settled + [x])[..|settled|] == settled;
  }

  lemma NextKeepsStatuses(s: State, step: Step)
    requires StatusesMatch(s)
    ensures StatusesMatch(Next(s, step))
  {
    if step.Status? && step.id in s.live {
      var answers := Next(s, step).answers;
      assert answers[..|s.answers|] == s.answers;
      forall answer ensures StatusCount(Next(s, step).statuses, answer) == AnswersOf(answers, answer) {
        assert StatusCount(s.statuses, answer) == AnswersOf(s.answers, answer);
      }
    }
  }

  ghost predicate ProviderMatches(s: State, p: string) {
    WindowOf(s.budgets, p).reservations == Reservations(s.live, p)
  }

  lemma BeganReservations(s: State, id: string, backend: Backend, reserved: u64, at: real, p: string)
    requires ProviderMatches(s, p) && id !in s.live
    ensures ProviderMatches(Began(s, id, backend, reserved, at), p)
  {
    LiveAdd(s.live, id, Guard(backend.id, backend.counter, reserved, None), p, 0);
  }

  lemma EndingReservations(s: State, id: string, outcome: Outcome, usage: Option<Usage>, at: real, p: string)
    requires ProviderMatches(s, p) && id in s.live
    ensures ProviderMatches(Ending(s, id, outcome, usage, at), p)
  {
    LiveDrop(s.live, id, p, 0);
  }

  lemma NextKeepsReservations(s: State, step: Step, p: string)
    requires ProviderMatches(s, p) && Enabled(s, step)
    ensures ProviderMatches(Next(s, step), p)
  {
    match step
    case Begin(id, backend, _, reserved, at) => BeganReservations(s, id, backend, reserved, at, p);
    case Status(id, code) => assert Reservations(Next(s, step).live, p) == Reservations(s.live, p);
    case Settle(id, outcome, usage, at) => if id in s.live { EndingReservations(s, id, outcome, usage, at, p); }
    case Reload(_) =>
  }

  lemma NextKeepsCharges(s: State, step: Step)
    requires ChargedOnce(s) && Enabled(s, step)
    ensures ChargedOnce(Next(s, step))
  {
  }

  lemma BeganCounter(counters: map<nat, Counts>, live: map<string, Guard>, settled: seq<Settlement>, id: string,
                     g: Guard, c: nat)
    requires CounterMatches(counters, live, settled, c) && id !in live
    ensures CounterMatches(counters[g.counter := Started(CountsOf(counters, g.counter))], live[id := g], settled, c)
  {
    LiveAdd(live, id, g, g.provider, c);
  }

  /** The decrement of a settlement never saturates: the guard itself is still counted. */
  lemma EndingCounter(counters: map<nat, Counts>, live: map<string, Guard>, settled: seq<Settlement>, id: string,
                      x: Settlement, c: nat)
    requires CounterMatches(counters, live, settled, c) && id in live && x.guard == live[id]
    ensures CounterMatches(counters[x.guard.counter := Ended(CountsOf(counters, x.guard.counter), x.outcome)],
                           live - {id}, settled + [x], c)
    ensures x.guard.counter == c ==> CountsOf(counters, c).inFlight > 0
  {
    LiveDrop(live, id, x.guard.provider, c);
    SettledOnAppend(settled, x, c);
    OutcomesAppend(CountsOf(counters, c), settled, x, Some(c));
  }

  /** All counts are exact, and the counters they are kept in were given out. */
  ghost predicate CountsAgree(s: State) {
    CountsMatch(s) && CountersFresh(s)
  }

  lemma BeganKeepsCounts(s: State, id: string, backend: Backend, reserved: u64, at: real)
    requires CountsAgree(s) && id !in s.live && backend.counter in s.counters
    ensures CountsAgree(Began(s, id, backend, reserved, at))
  {
    var t := Began(s, id, backend, reserved, at);
    forall c: nat ensures CounterMatches(t.counters, t.live, t.settled, c) {
      BeganCounter(s.counters, s.live, s.settled, id, t.live[id], c);
    }
  }

  /** No saturating decrement of a settlement ever saturates. */
  lemma EndingKeepsCounts(s: State, id: string, outcome: Outcome, usage: Option<Usage>, at: real)
    requires CountsAgree(s) && id in s.live
    ensures CountsAgree(Ending(s, id, outcome, usage, at))
    ensures s.stats.inFlight > 0 && CountsOf(s.counters, s.live[id].counter).inFlight > 0
  {
    var t := Ending(s, id, outcome, usage, at);
    var x := t.settled[|s.settled|];
    LiveDrop(s.live, id, "", 0);
    OutcomesAppend(s.stats, s.settled, x, None);
    EndingCounter(s.counters, s.live, s.settled, id, x, s.live[id].counter);
    forall c: nat ensures CounterMatches(t.counters, t.live, t.settled, c) {
      EndingCounter(s.counters, s.live, s.settled, id, x, c);
    }
  }

  lemma StatusKeepsCounts(s: State, id: string, code: nat)
    requires CountsAgree(s) && id in s.live
    ensures CountsAgree(Next(s, Status(id, code)))
  {
    var t := Next(s, Status(id, code));
    assert t.live.Keys == s.live.Keys;
    assert |t.live| == |t.live.Keys| == |s.live.Keys| == |s.live|;
    forall c: nat ensures CounterMatches(t.counters, t.live, t.settled, c) {
      assert LiveOn(t.live, c) == LiveOn(s.live, c);
      assert CounterMatches(s.counters, s.live, s.settled, c);
    }
  }

  lemma LoadedCounters(settings: seq<Settings>, config: seq<Backend>, next: nat, counters: map<nat, Counts>)
    requires forall b :: b in config ==> b.counter in counters
    requires forall c :: c in counters ==> c < next
    ensures forall b :: b in Load(settings, config, next) ==>
              b.counter < next + |settings| && (b.counter in counters || b.counter >= next)
  {
    forall b | b in Load(settings, config, next)
      ensures b.counter < next + |settings| && (b.counter in counters || b.counter >= next)
    {
      var i :| 0 <= i < |settings| && Load(settings, config, next)[i] == b;
      var prior := Find(config, settings[i].id);
    }
  }

  /** A reload changes no count; what it adds starts at zero. */
  lemma ReloadedKeepsCounts(s: State, settings: seq<Settings>)
    requires CountsAgree(s)
    ensures CountsAgree(Reloaded(s, settings))
  {
    var t := Reloaded(s, settings);
    LoadedCounters(settings, s.config, s.nextCounter, s.counters);
    forall c: nat ensures CounterMatches(t.counters, t.live, t.settled, c) {
      assert CounterMatches(s.counters, s.live, s.settled, c);
    }
  }

  lemma NextKeepsConservation(s: State, step: Step)
    requires Conserved(s) && Enabled(s, step)
    ensures Conserved(Next(s, step))
  {
    forall p: string ensures ProviderMatches(Next(s, step), p) {
      NextKeepsReservations(s, step, p);
    }
    NextKeepsCharges(s, step);
    NextKeepsStatuses(s, step);
    match step
    case Begin(id, backend, _, reserved, at) => BeganKeepsCounts(s, id, backend, reserved, at);
    case Status(id, code) => if id in s.live { StatusKeepsCounts(s, id, code); }
    case Settle(id, outcome, usage, at) => if id in s.live { EndingKeepsCounts(s, id, outcome, usage, at); }
    case Reload(settings) => ReloadedKeepsCounts(s, settings);
  }

  /**
   * In every reachable state, across reloads that remove or restore
   * providers, reservations are exactly those of the live guards, every
   * counter equals what it counts, and no attempt is charged twice.
   */
  lemma {:induction false} ReachableIsConserved(s: State, steps: seq<Step>)
    requires Initial(s) && ValidRun(s, steps)
    ensures Conserved(Run(s, steps))
    decreases |steps|
  {
    if steps == [] {
      assert forall p: string :: Reservations(s.live, p) == map[];
      assert forall c: nat :: LiveOn(s.live, c) == {};
    } else {
      var init := steps[..|steps| - 1];
      forall n | 0 <= n < |init| ensures Enabled(Run(s, init[..n]), init[n]) {
        assert init[..n] == steps[..n];
        assert Enabled(Run(s, steps[..n]), steps[n]);
      }
      ReachableIsConserved(s, init);
      NextKeepsConservation(Run(s, init), steps[|steps| - 1]);
    }
  }
}
