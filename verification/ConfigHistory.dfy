/**
 * The identity of counters over sequences of configurations
 * (src/proxy/runtime.rs, `LiveConfig::load` and `reload`).
 */
module ConfigHistory {
  import opened Prelude
  import opened Config

  /** No two providers share counters, and all were given out before `next`. */
  ghost predicate OwnCounters(config: seq<Backend>, next: nat) {
    && (forall b :: b in config ==> b.counter < next)
    && forall i, j :: 0 <= i < j < |config| ==> config[i].counter != config[j].counter
  }

  ghost predicate DistinctSettings(settings: seq<Settings>) {
    forall i, j :: 0 <= i < j < |settings| ==> settings[i].id != settings[j].id
  }

  lemma SharedCounterIsSameId(settings: seq<Settings>, previous: seq<Backend>, next: nat, b: Backend, i: nat)
    requires UniqueIds(previous) && OwnCounters(previous, next) && b in previous && i < |settings|
    ensures b.counter == Load(settings, previous, next)[i].counter <==> b.id == settings[i].id
  {
    FindIsUnique(previous, b);
    var prior := Find(previous, settings[i].id);
    if prior.Some? {
      var j :| 0 <= j < |previous| && previous[j] == b;
      var k :| 0 <= k < |previous| && previous[k] == prior.value;
      assert b.counter == prior.value.counter ==> j == k;
    }
  }

  /**
   * A loaded provider shares its counters with the earlier provider of the
   * same id and with no other one, earlier or loaded; new counters were never
   * given out before.
   */
  lemma CountersFollowIds(settings: seq<Settings>, previous: seq<Backend>, next: nat)
    requires UniqueIds(previous) && OwnCounters(previous, next) && DistinctSettings(settings)
    ensures var config := Load(settings, previous, next);
            && UniqueIds(config) && OwnCounters(config, next + |settings|)
            && (forall b, c :: b in previous && c in config ==> (b.counter == c.counter <==> b.id == c.id))
            && (forall c :: c in config ==> (c.counter >= next <==> forall b :: b in previous ==> b.id != c.id))
  {
    var config := Load(settings, previous, next);
    forall b, c | b in previous && c in config ensures b.counter == c.counter <==> b.id == c.id {
      var i :| 0 <= i < |config| && config[i] == c;
      SharedCounterIsSameId(settings, previous, next, b, i);
    }
    forall i, j | 0 <= i < j < |config| ensures config[i].counter != config[j].counter {
      var prior := Find(previous, settings[i].id);
      if prior.Some? {
        SharedCounterIsSameId(settings, previous, next, prior.value, j);
      }
    }
  }

  // ---------------------------------------------------------------------
  // Many reloads
  // ---------------------------------------------------------------------

  datatype Loaded = Loaded(config: seq<Backend>, next: nat)

  /** The configuration after the first `n` of some loads, and the next counter. */
  function LoadedAfter(history: seq<seq<Settings>>, n: nat): Loaded
    requires n <= |history|
  {
    if n == 0 then Loaded([], 0)
    else
      var before := LoadedAfter(history, n - 1);
      Loaded(Load(history[n - 1], before.config, before.next), before.next + |history[n - 1]|)
  }

  ghost predicate Mentions(settings: seq<Settings>, id: string) {
    exists s :: s in settings && s.id == id
  }

  ghost predicate AllDistinct(history: seq<seq<Settings>>) {
    forall k :: 0 <= k < |history| ==> DistinctSettings(history[k])
  }

  /** Every configuration has distinct ids and counters, and exactly the ids of its settings. */
  lemma {:induction false} LoadedIsOrderly(history: seq<seq<Settings>>, n: nat)
    requires n <= |history| && AllDistinct(history)
    ensures UniqueIds(LoadedAfter(history, n).config)
    ensures OwnCounters(LoadedAfter(history, n).config, LoadedAfter(history, n).next)
  {
    if n == 0 {
    } else {
      LoadedIsOrderly(history, n - 1);
      CountersFollowIds(history[n - 1], LoadedAfter(history, n - 1).config, LoadedAfter(history, n - 1).next);
    }
  }

  lemma LoadedHasIds(history: seq<seq<Settings>>, n: nat, id: string)
    requires 0 < n <= |history|
    ensures Mentions(history[n - 1], id) <==> exists b :: b in LoadedAfter(history, n).config && b.id == id
  {
    var settings, config := history[n - 1], LoadedAfter(history, n).config;
    if Mentions(settings, id) {
      var i :| 0 <= i < |settings| && settings[i].id == id;
      assert config[i] in config && config[i].id == id;
    }
    if b :| b in config && b.id == id {
      var i :| 0 <= i < |config| && config[i] == b;
      assert settings[i] in settings;
    }
  }

  lemma {:induction false} NextOnlyGrows(history: seq<seq<Settings>>, m: nat, n: nat)
    requires m <= n <= |history|
    ensures LoadedAfter(history, m).next <= LoadedAfter(history, n).next
    decreases n
  {
    if m == n {
    } else {
      NextOnlyGrows(history, m, n - 1);
    }
  }

  /** The loads from the `m`-th to the `n`-th all name a provider. */
  ghost predicate NamedThroughout(history: seq<seq<Settings>>, m: nat, n: nat, id: string)
    requires 0 < m <= n <= |history|
  {
    forall k :: m - 1 <= k < n ==> Mentions(history[k], id)
  }

  lemma NamedNext(history: seq<seq<Settings>>, m: nat, n: nat, id: string)
    requires 0 < m < n <= |history|
    ensures NamedThroughout(history, m, n, id) <==>
              NamedThroughout(history, m, n - 1, id) && Mentions(history[n - 1], id)
  {
  }

  /** A provider whose id survives keeps its counters; any other one gets new ones. */
  lemma OneLoad(settings: seq<Settings>, previous: seq<Backend>, next: nat, c: Backend)
    requires UniqueIds(previous) && OwnCounters(previous, next) && DistinctSettings(settings)
    requires c in Load(settings, previous, next)
    ensures forall d :: d in previous && d.id == c.id ==> d.counter == c.counter
    ensures (forall d :: d in previous ==> d.id != c.id) ==> c.counter >= next
  {
    CountersFollowIds(settings, previous, next);
  }

  lemma SameCounterIsSame(config: seq<Backend>, next: nat, b: Backend, c: Backend)
    requires UniqueIds(config) && OwnCounters(config, next) && b in config && c in config
    ensures b.counter == c.counter <==> b.id == c.id
  {
    var i :| 0 <= i < |config| && config[i] == b;
    var j :| 0 <= j < |config| && config[j] == c;
  }

  lemma EarlierIsBelow(history: seq<seq<Settings>>, m: nat, n: nat, b: Backend)
    requires m <= n <= |history| && AllDistinct(history) && b in LoadedAfter(history, m).config
    ensures b.counter < LoadedAfter(history, n).next
  {
    LoadedIsOrderly(history, m);
    NextOnlyGrows(history, m, n);
  }

  /**
   * Over any sequence of loads two providers share their counters exactly when
   * they have the same id and no load between them left that id out: a removed
   * provider that returns later starts with new ones.
   */
  lemma {:induction false} CountersFollowHistory(history: seq<seq<Settings>>, m: nat, n: nat, b: Backend, c: Backend)
    requires 0 < m <= n <= |history| && AllDistinct(history)
    requires b in LoadedAfter(history, m).config && c in LoadedAfter(history, n).config
    ensures b.counter == c.counter <==> b.id == c.id && NamedThroughout(history, m, n, b.id)
    decreases n
  {
    LoadedHasIds(history, n, c.id);
    if m == n {
      LoadedIsOrderly(history, n);
      SameCounterIsSame(LoadedAfter(history, n).config, LoadedAfter(history, n).next, b, c);
    } else {
      LoadedIsOrderly(history, n - 1);
      OneLoad(history[n - 1], LoadedAfter(history, n - 1).config, LoadedAfter(history, n - 1).next, c);
      LoadedHasIds(history, n - 1, c.id);
      NamedNext(history, m, n, b.id);
      if Mentions(history[n - 2], c.id) {
        var d :| d in LoadedAfter(history, n - 1).config && d.id == c.id;
        CountersFollowHistory(history, m, n - 1, b, d);
      } else {
        EarlierIsBelow(history, m, n - 1, b);
      }
    }
  }
}
