/**
 * The waits of one request (src/proxy/runtime.rs, the end of a pass of
 * `forward`): how much of its wait budget they ask for, spend and leave.
 */
module Waits {
  import opened Prelude

  const SHORTEST_SLEEP: real := 0.001
  const LONGEST_SLEEP: real := 1.0

  /** One wait: how long until a provider may be ready, and how long it took to wake up. */
  datatype Wait = Wait(delay: real, elapsed: real)

  function SleepFor(delay: real, remaining: real): real {
    Min(Max(Min(delay, remaining), SHORTEST_SLEEP), LONGEST_SLEEP)
  }

  /** A request asks to sleep for the delay, within a millisecond and a second, and within the budget but for that. */
  lemma SleepIsClamped(delay: real, remaining: real)
    ensures SHORTEST_SLEEP <= SleepFor(delay, remaining) <= LONGEST_SLEEP
    ensures SHORTEST_SLEEP <= delay <= LONGEST_SLEEP && delay <= remaining ==> SleepFor(delay, remaining) == delay
    ensures SHORTEST_SLEEP <= remaining <= LONGEST_SLEEP && remaining <= delay ==>
              SleepFor(delay, remaining) == remaining
    ensures delay <= SHORTEST_SLEEP || remaining <= SHORTEST_SLEEP ==> SleepFor(delay, remaining) == SHORTEST_SLEEP
    ensures delay >= LONGEST_SLEEP && remaining >= LONGEST_SLEEP ==> SleepFor(delay, remaining) == LONGEST_SLEEP
  {
  }

  /** What is left of the wait budget. */
  function Remaining(waits: seq<Wait>, budget: real): real {
    if waits == [] then budget
    else Max(Remaining(waits[..|waits| - 1], budget) - waits[|waits| - 1].elapsed, 0.0)
  }

  /** The time asked for in all waits together. */
  function Asked(waits: seq<Wait>, budget: real): real {
    if waits == [] then 0.0
    else
      var init := waits[..|waits| - 1];
      Asked(init, budget) + SleepFor(waits[|waits| - 1].delay, Remaining(init, budget))
  }

  /** The time asked for and spent; a released or edited route wakes a request early. */
  function Slept(waits: seq<Wait>, budget: real): real {
    if waits == [] then 0.0
    else
      var init, last := waits[..|waits| - 1], waits[|waits| - 1];
      Slept(init, budget) + Min(SleepFor(last.delay, Remaining(init, budget)), last.elapsed)
  }

  function Elapsed(waits: seq<Wait>): real {
    if waits == [] then 0.0 else Elapsed(waits[..|waits| - 1]) + waits[|waits| - 1].elapsed
  }

  /** Waits that each began with some of the budget left. */
  ghost predicate Waited(waits: seq<Wait>, budget: real) {
    waits == [] || (Waited(waits[..|waits| - 1], budget) && Remaining(waits[..|waits| - 1], budget) > 0.0
                    && waits[|waits| - 1].elapsed >= 0.0)
  }

  lemma {:induction false} RemainingIsRest(waits: seq<Wait>, budget: real)
    requires Waited(waits, budget) && budget >= 0.0
    ensures Remaining(waits, budget) == Max(budget - Elapsed(waits), 0.0)
  {
    if waits == [] {
    } else {
      RemainingIsRest(waits[..|waits| - 1], budget);
    }
  }

  /** A request sleeps at most its wait budget and one more millisecond. */
  lemma {:induction false} SleepIsBounded(waits: seq<Wait>, budget: real)
    requires Waited(waits, budget) && budget >= 0.0
    ensures Slept(waits, budget) <= budget + SHORTEST_SLEEP
    ensures Remaining(waits, budget) > 0.0 ==> Slept(waits, budget) + Remaining(waits, budget) <= budget
  {
    if waits == [] {
    } else {
      SleepIsBounded(waits[..|waits| - 1], budget);
    }
  }

  ghost predicate NoneIsEarly(waits: seq<Wait>, budget: real) {
    waits == [] || (NoneIsEarly(waits[..|waits| - 1], budget)
                    && waits[|waits| - 1].elapsed
                       >= SleepFor(waits[|waits| - 1].delay, Remaining(waits[..|waits| - 1], budget)))
  }

  /** Without early wake-ups the same bound holds for the time asked for. */
  lemma {:induction false} AskedIsSlept(waits: seq<Wait>, budget: real)
    ensures Slept(waits, budget) <= Asked(waits, budget)
    ensures Slept(waits, budget) == Asked(waits, budget) <==> NoneIsEarly(waits, budget)
  {
    if waits == [] {
    } else {
      AskedIsSlept(waits[..|waits| - 1], budget);
    }
  }

  /** What a wake-up cut off: the part of a requested wait that the budget did not pay for. */
  function CutOff(w: Wait, remaining: real): real {
    SleepFor(w.delay, remaining) - Min(w.elapsed, remaining)
  }

  function TotalCutOff(waits: seq<Wait>, budget: real): real {
    if waits == [] then 0.0
    else
      var init := waits[..|waits| - 1];
      TotalCutOff(init, budget) + CutOff(waits[|waits| - 1], Remaining(init, budget))
  }

  /** The requested waits overdraw what was taken from the budget by exactly what the wake-ups cut off. */
  lemma {:induction false} AskedIsPaidAndCutOff(waits: seq<Wait>, budget: real)
    requires Waited(waits, budget)
    ensures Asked(waits, budget) == budget - Remaining(waits, budget) + TotalCutOff(waits, budget)
  {
    if waits == [] {
    } else {
      AskedIsPaidAndCutOff(waits[..|waits| - 1], budget);
    }
  }

  /**
   * The requested waits sum to at most the budget and a millisecond exactly
   * when what the wake-ups cut off fits into what is left.
   */
  lemma AskedWithinBudget(waits: seq<Wait>, budget: real)
    requires Waited(waits, budget)
    ensures Asked(waits, budget) <= budget + SHORTEST_SLEEP <==>
              TotalCutOff(waits, budget) <= Remaining(waits, budget) + SHORTEST_SLEEP
  {
    AskedIsPaidAndCutOff(waits, budget);
  }

  /**
   * One more wait keeps the requested waits within the budget exactly when the
   * wake-up cuts off no more than is left then, beyond what earlier ones did.
   */
  lemma NextWaitWithinBudget(waits: seq<Wait>, w: Wait, budget: real)
    requires Waited(waits, budget) && Remaining(waits, budget) > 0.0 && w.elapsed >= 0.0
    ensures Asked(waits + [w], budget) <= budget + SHORTEST_SLEEP <==>
              TotalCutOff(waits, budget) + CutOff(w, Remaining(waits, budget))
              <= Max(Remaining(waits, budget) - w.elapsed, 0.0) + SHORTEST_SLEEP
    ensures w.elapsed >= SleepFor(w.delay, Remaining(waits, budget)) ==>
              CutOff(w, Remaining(waits, budget))
              <= if w.elapsed < Remaining(waits, budget) then 0.0 else SHORTEST_SLEEP
  {
    assert (waits + [w])[..|waits|] == waits;
    AskedWithinBudget(waits + [w], budget);
  }

  /** With early wake-ups a request may ask for more than its budget: here 1.75 seconds in half a second. */
  lemma EarlyWakeUpsAskForMore()
    ensures var waits := [Wait(5.0, 0.25), Wait(5.0, 0.25)];
            && Waited(waits, 1.0) && Asked(waits, 1.0) == 1.75 && Slept(waits, 1.0) == 0.5
            && TotalCutOff(waits, 1.0) == 1.25 && Remaining(waits, 1.0) == 0.5
  {
    var a, b := Wait(5.0, 0.25), Wait(5.0, 0.25);
    assert [a, b][..1] == [a] && [a][..0] == [];
    assert Remaining([], 1.0) == 1.0 && Asked([], 1.0) == 0.0 && Slept([], 1.0) == 0.0 && TotalCutOff([], 1.0) == 0.0;
    assert CutOff(a, 1.0) == 0.75 && CutOff(b, 0.75) == 0.5;
    assert Remaining([a], 1.0) == 0.75 && Asked([a], 1.0) == 1.0 && Slept([a], 1.0) == 0.25;
    assert TotalCutOff([a], 1.0) == 0.75;
  }

  ghost predicate AllTick(waits: seq<Wait>, tick: real) {
    forall w :: w in waits ==> w.elapsed >= tick
  }

  /** If every wake-up advances the clock, only so many waits fit into the budget. */
  lemma {:induction false} WaitsAreFew(waits: seq<Wait>, budget: real, tick: real)
    requires Waited(waits, budget) && budget >= 0.0 && tick > 0.0
    requires AllTick(waits, tick)
    ensures |waits| as real * tick <= Elapsed(waits)
    ensures waits != [] ==> (|waits| - 1) as real * tick < budget
  {
    if waits == [] {
    } else {
      var init := waits[..|waits| - 1];
      WaitsAreFew(init, budget, tick);
      RemainingIsRest(init, budget);
      assert waits[|waits| - 1] in waits;
      assert |waits| as real * tick == |init| as real * tick + tick;
    }
  }

  lemma NextWait(waits: seq<Wait>, w: Wait, budget: real, tick: real)
    ensures AllTick(waits, tick) && w.elapsed >= tick ==> AllTick(waits + [w], tick)
    ensures Remaining(waits + [w], budget) == Max(Remaining(waits, budget) - w.elapsed, 0.0)
    ensures Waited(waits, budget) && Remaining(waits, budget) > 0.0 && w.elapsed >= 0.0 ==> Waited(waits + [w], budget)
  {
    assert (waits + [w])[..|waits|] == waits;
  }

  /** Enough ticks to use up the budget. */
  lemma EnoughTicks(budget: real, tick: real) returns (limit: nat)
    requires budget >= 0.0 && tick > 0.0
    ensures limit as real * tick >= budget
  {
    limit := (budget / tick).Floor + 1;
    assert limit as real >= budget / tick;
    assert limit as real * tick >= budget / tick * tick;
  }

  lemma FewWaits(waits: seq<Wait>, budget: real, tick: real, limit: nat)
    requires Waited(waits, budget) && budget >= 0.0 && tick > 0.0 && limit as real * tick >= budget
    requires AllTick(waits, tick)
    ensures |waits| <= limit
  {
    WaitsAreFew(waits, budget, tick);
    MoreTicks(limit, |waits| - 1, tick);
  }

  lemma MoreTicks(a: int, b: int, tick: real)
    requires tick > 0.0
    ensures a <= b ==> a as real * tick <= b as real * tick
  {
    if a <= b {
      assert (b - a) as real * tick >= 0.0;
      assert b as real * tick == a as real * tick + (b - a) as real * tick;
    }
  }

  ghost predicate OnTime(waits: seq<Wait>, budget: real, tick: real, limit: nat) {
    Waited(waits, budget) && AllTick(waits, tick) && |waits| <= limit
  }

  lemma WaitAgain(waits: seq<Wait>, w: Wait, budget: real, tick: real, limit: nat)
    requires OnTime(waits, budget, tick, limit) && w.elapsed >= tick > 0.0
    requires budget >= 0.0 && limit as real * tick >= budget && Remaining(waits, budget) > 0.0
    ensures OnTime(waits + [w], budget, tick, limit)
    ensures Remaining(waits + [w], budget) == Max(Remaining(waits, budget) - w.elapsed, 0.0)
  {
    NextWait(waits, w, budget, tick);
    FewWaits(waits + [w], budget, tick, limit);
  }
}
