/**
 * The routing table (src/proxy/runtime.rs, `set_route`, `release_routes`,
 * `reload`, `reserve`, `rotate`, `choose_assignment`, `route_compatible` and
 * `route_key`).
 */
module Routing {
  import opened Prelude
  import opened Config

  // ---------------------------------------------------------------------
  // Identifiers and keys
  // ---------------------------------------------------------------------

  const NUL: char := '\0'

  predicate IsIdChar(c: char) {
    'a' <= c <= 'z' || 'A' <= c <= 'Z' || '0' <= c <= '9' || c == '_' || c == '-'
  }

  predicate ValidId(s: string) {
    0 < |s| <= 100 && forall i :: 0 <= i < |s| ==> IsIdChar(s[i])
  }

  predicate BlankOrValid(s: string) {
    s == "" || ValidId(s)
  }

  /** The table key of a route; the identifiers cannot contain the separator. */
  function RouteKey(id: string, thread: string): string {
    if thread == "" then id else id + [NUL] + thread
  }

  /** The separator after a shorter identifier would be part of a longer one. */
  lemma NotShorter(id1: string, thread1: string, id2: string, thread2: string)
    requires ValidId(id1) && ValidId(id2) && RouteKey(id1, thread1) == RouteKey(id2, thread2)
    ensures |id1| >= |id2|
  {
    var key := RouteKey(id1, thread1);
    assert key[..|id2|] == id2;
    assert forall i :: 0 <= i < |id2| ==> IsIdChar(key[i]);
    assert thread1 != "" ==> key[|id1|] == NUL;
  }

  lemma RouteKeyIsInjective(id1: string, thread1: string, id2: string, thread2: string)
    requires ValidId(id1) && ValidId(id2) && RouteKey(id1, thread1) == RouteKey(id2, thread2)
    ensures id1 == id2 && thread1 == thread2
  {
    var key := RouteKey(id1, thread1);
    NotShorter(id1, thread1, id2, thread2);
    NotShorter(id2, thread2, id1, thread1);
    assert key[..|id1|] == id1 && key[..|id2|] == id2;
    assert key[|id1|..] == (if thread1 == "" then "" else [NUL] + thread1);
    assert key[|id2|..] == (if thread2 == "" then "" else [NUL] + thread2);
    assert thread1 != "" ==> key[|id1| + 1..] == thread1;
    assert thread2 != "" ==> key[|id1| + 1..] == thread2;
  }

  // ---------------------------------------------------------------------
  // Routes
  // ---------------------------------------------------------------------

  datatype Role = NoRole | Main | Auxiliary | UnknownRole(name: string)

  datatype Strategy = Priority | Balanced | UnknownStrategy(name: string)

  datatype RouteSpec = RouteSpec(
    id: string, providers: seq<string>, strategy: Strategy, wait: Option<real>, maxOutput: nat,
    project: string, task: string, run: string, thread: string, role: Role)
  {
    /** Only routes with a role are kept per thread. */
    function Key(): string {
      if role.NoRole? then id else RouteKey(id, thread)
    }

    /** The same run, task and project. */
    predicate SameOwner(other: RouteSpec) {
      run == other.run && task == other.task && project == other.project
    }

    predicate SameThread(other: RouteSpec) {
      id == other.id && thread == other.thread
    }
  }

  datatype TaskRoute = TaskRoute(
    spec: RouteSpec, preferred: string, lastProvider: Option<string>, attempts: map<string, nat>,
    assignment: Option<string>)

  type Routes = map<string, TaskRoute>

  predicate ValidContext(spec: RouteSpec) {
    && BlankOrValid(spec.project) && BlankOrValid(spec.task) && BlankOrValid(spec.run) && BlankOrValid(spec.thread)
    && (spec.role.NoRole?
        || ((spec.role.Main? || spec.role.Auxiliary?) && spec.project != "" && spec.task != "" && spec.run != ""))
  }

  predicate Distinct(ids: seq<string>) {
    forall i, j :: 0 <= i < j < |ids| ==> ids[i] != ids[j]
  }

  /** The first usable provider with an id. */
  function FindUsable(config: seq<Backend>, id: string): (found: Option<Backend>)
    ensures found.Some? ==> found.value in config && found.value.id == id && found.value.Usable()
    ensures found.None? <==> forall b :: b in config && b.id == id ==> !b.Usable()
  {
    if config == [] then None
    else if config[0].id == id && config[0].Usable() then Some(config[0])
    else FindUsable(config[1..], id)
  }

  /** The usable providers of a list, in its order. */
  function UsableBackends(ids: seq<string>, config: seq<Backend>): (found: seq<Backend>)
    ensures |found| <= |ids|
  {
    if ids == [] then []
    else
      var last := FindUsable(config, ids[|ids| - 1]);
      UsableBackends(ids[..|ids| - 1], config) + if last.Some? then [last.value] else []
  }

  predicate Compatible(spec: RouteSpec, config: seq<Backend>) {
    var backends := UsableBackends(spec.providers, config);
    && |backends| == |spec.providers| && backends != []
    && forall i :: 0 <= i < |backends| ==> backends[i].deployment == backends[0].deployment
  }

  /** A route's list names at least one provider, all of them usable and of one deployment. */
  ghost predicate Served(spec: RouteSpec, config: seq<Backend>) {
    && spec.providers != []
    && EachFound(spec.providers, config)
    && forall i :: 0 <= i < |spec.providers| ==>
         FindUsable(config, spec.providers[i]).value.deployment
         == FindUsable(config, spec.providers[0]).value.deployment
  }

  ghost predicate EachFound(ids: seq<string>, config: seq<Backend>) {
    forall i :: 0 <= i < |ids| ==> FindUsable(config, ids[i]).Some?
  }

  lemma EachFoundNext(ids: seq<string>, config: seq<Backend>)
    requires ids != []
    ensures EachFound(ids, config) <==>
              EachFound(ids[..|ids| - 1], config) && FindUsable(config, ids[|ids| - 1]).Some?
  {
    var init := ids[..|ids| - 1];
    assert forall i :: 0 <= i < |init| ==> init[i] == ids[i];
  }

  /** `found` lists the usable provider of each id. */
  ghost predicate Lists(found: seq<Backend>, ids: seq<string>, config: seq<Backend>) {
    |found| == |ids| && forall i :: 0 <= i < |ids| ==> FindUsable(config, ids[i]) == Some(found[i])
  }

  lemma ListsNext(found: seq<Backend>, ids: seq<string>, config: seq<Backend>, b: Backend)
    requires ids != [] && Lists(found, ids[..|ids| - 1], config) && FindUsable(config, ids[|ids| - 1]) == Some(b)
    ensures Lists(found + [b], ids, config)
  {
    var init := ids[..|ids| - 1];
    forall i | 0 <= i < |ids| ensures FindUsable(config, ids[i]) == Some((found + [b])[i]) {
      assert i < |init| ==> init[i] == ids[i] && FindUsable(config, init[i]) == Some(found[i]);
    }
  }

  lemma {:induction false} AllFound(ids: seq<string>, config: seq<Backend>)
    ensures |UsableBackends(ids, config)| == |ids| <==> EachFound(ids, config)
    ensures EachFound(ids, config) ==> Lists(UsableBackends(ids, config), ids, config)
  {
    if ids == [] {
    } else {
      AllFound(ids[..|ids| - 1], config);
      EachFoundNext(ids, config);
      if EachFound(ids, config) {
        ListsNext(UsableBackends(ids[..|ids| - 1], config), ids, config, FindUsable(config, ids[|ids| - 1]).value);
      }
    }
  }

  lemma CompatibleIsServed(spec: RouteSpec, config: seq<Backend>)
    ensures Compatible(spec, config) <==> Served(spec, config)
  {
    AllFound(spec.providers, config);
  }

  // ---------------------------------------------------------------------
  // Choosing a provider
  // ---------------------------------------------------------------------

  /** What a choice knows about the providers: budget, cooldown and requests in flight. */
  datatype Health = Health(
    admits: (Backend, nat) -> bool, soft: Backend -> bool, cooling: Backend -> bool, inFlight: Backend -> nat)

  /** The routes other than the one of `spec` that are assigned to provider `id` in some role. */
  function Others(routes: Routes, spec: RouteSpec, id: string, role: Role): set<string> {
    set k | k in routes && !routes[k].spec.SameThread(spec) && routes[k].assignment == Some(id)
        && routes[k].spec.role == role
  }

  predicate Eligible(route: TaskRoute, h: Health, estimate: nat, b: Backend) {
    b.Usable() && b.id in route.spec.providers && h.admits(b, estimate) && !h.cooling(b)
  }

  /** The six parts a choice is ordered by; smaller is better. */
  datatype Rank = Rank(soft: nat, moved: nat, grade: nat, load: nat, inFlight: nat, position: nat) {
    predicate Before(other: Rank) {
      || soft < other.soft
      || (soft == other.soft &&
          (|| moved < other.moved
           || (moved == other.moved &&
               (|| grade < other.grade
                || (grade == other.grade &&
                    (|| load < other.load
                     || (load == other.load &&
                         (|| inFlight < other.inFlight
                          || (inFlight == other.inFlight && position < other.position)))))))))
    }
  }

  function Position(ids: seq<string>, id: string): (p: nat)
    ensures p <= |ids| && (p < |ids| <==> id in ids) && (p < |ids| ==> ids[p] == id)
  {
    if ids == [] then 0 else if ids[0] == id then 0 else 1 + Position(ids[1..], id)
  }

  /** Main routes prefer a free provider, then one that only serves auxiliaries; auxiliaries prefer to share. */
  function GradeFor(role: Role, main: nat, auxiliary: nat, inFlight: nat): nat {
    var free := main + auxiliary + inFlight == 0;
    if role.Auxiliary? then
      if auxiliary > 0 then 0 else if free then 1 else 2
    else if free then 0
    else if main == 0 && auxiliary > 0 then 1
    else 2
  }

  function RankOf(routes: Routes, route: TaskRoute, h: Health, b: Backend): Rank {
    var main, auxiliary := |Others(routes, route.spec, b.id, Main)|, |Others(routes, route.spec, b.id, Auxiliary)|;
    Rank(
      if h.soft(b) then 1 else 0,
      if route.assignment == Some(b.id) then 0 else 1,
      GradeFor(route.spec.role, main, auxiliary, h.inFlight(b)),
      main + auxiliary + h.inFlight(b),
      h.inFlight(b),
      Position(route.spec.providers, b.id))
  }

  /** The first eligible candidate of least rank. */
  function Choose(routes: Routes, route: TaskRoute, candidates: seq<Backend>, estimate: nat,
                  h: Health): Option<Backend> {
    if candidates == [] then None
    else
      var last := candidates[|candidates| - 1];
      var best := Choose(routes, route, candidates[..|candidates| - 1], estimate, h);
      if !Eligible(route, h, estimate, last) then best
      else if best.None? || RankOf(routes, route, h, last).Before(RankOf(routes, route, h, best.value)) then Some(last)
      else best
  }

  /** Candidate `b` is eligible and no worse than any eligible one of `candidates`. */
  ghost predicate IsLeast(routes: Routes, route: TaskRoute, candidates: seq<Backend>, estimate: nat, h: Health,
                          b: Backend) {
    && Eligible(route, h, estimate, b)
    && forall j :: 0 <= j < |candidates| && Eligible(route, h, estimate, candidates[j]) ==>
         !RankOf(routes, route, h, candidates[j]).Before(RankOf(routes, route, h, b))
  }

  /** Candidate `b` is better than every eligible one of `candidates`. */
  ghost predicate BeatsAll(routes: Routes, route: TaskRoute, candidates: seq<Backend>, estimate: nat, h: Health,
                           b: Backend) {
    forall j :: 0 <= j < |candidates| && Eligible(route, h, estimate, candidates[j]) ==>
      RankOf(routes, route, h, b).Before(RankOf(routes, route, h, candidates[j]))
  }

  lemma RanksChain(a: Rank, b: Rank, c: Rank)
    requires a.Before(b) && !c.Before(b)
    ensures a.Before(c) && !c.Before(a)
  {
  }

  lemma BetterBeatsAll(routes: Routes, route: TaskRoute, candidates: seq<Backend>, estimate: nat, h: Health,
                       b: Backend, best: Backend)
    requires IsLeast(routes, route, candidates, estimate, h, best)
    requires RankOf(routes, route, h, b).Before(RankOf(routes, route, h, best))
    ensures BeatsAll(routes, route, candidates, estimate, h, b)
  {
    forall j | 0 <= j < |candidates| && Eligible(route, h, estimate, candidates[j])
      ensures RankOf(routes, route, h, b).Before(RankOf(routes, route, h, candidates[j]))
    {
      RanksChain(RankOf(routes, route, h, b), RankOf(routes, route, h, best), RankOf(routes, route, h, candidates[j]));
    }
  }

  lemma LeastNext(routes: Routes, route: TaskRoute, candidates: seq<Backend>, estimate: nat, h: Health, b: Backend)
    requires candidates != []
    ensures var init, last := candidates[..|candidates| - 1], candidates[|candidates| - 1];
            && (IsLeast(routes, route, init, estimate, h, b)
                && (Eligible(route, h, estimate, last) ==>
                      !RankOf(routes, route, h, last).Before(RankOf(routes, route, h, b)))
                ==> IsLeast(routes, route, candidates, estimate, h, b))
            && (BeatsAll(routes, route, init, estimate, h, last) && Eligible(route, h, estimate, last)
                ==> IsLeast(routes, route, candidates, estimate, h, last))
  {
    var init := candidates[..|candidates| - 1];
    forall j | 0 <= j < |init| ensures candidates[j] == init[j] {}
  }

  /** Candidate `i` is the first eligible one of least rank. */
  ghost predicate IsFirstLeast(routes: Routes, route: TaskRoute, candidates: seq<Backend>, estimate: nat, h: Health,
                               i: nat)
  {
    && i < |candidates| && IsLeast(routes, route, candidates, estimate, h, candidates[i])
    && BeatsAll(routes, route, candidates[..i], estimate, h, candidates[i])
  }

  /** A last candidate that is no better changes nothing. */
  lemma FirstLeastStays(routes: Routes, route: TaskRoute, candidates: seq<Backend>, estimate: nat, h: Health, i: nat)
    requires candidates != [] && IsFirstLeast(routes, route, candidates[..|candidates| - 1], estimate, h, i)
    requires var last := candidates[|candidates| - 1];
             Eligible(route, h, estimate, last) ==>
               !RankOf(routes, route, h, last).Before(RankOf(routes, route, h, candidates[i]))
    ensures IsFirstLeast(routes, route, candidates, estimate, h, i)
  {
    var init := candidates[..|candidates| - 1];
    assert candidates[..i] == init[..i] && candidates[i] == init[i];
    LeastNext(routes, route, candidates, estimate, h, candidates[i]);
  }

  /** A last candidate that is better than all others is the choice. */
  lemma FirstLeastIsLast(routes: Routes, route: TaskRoute, candidates: seq<Backend>, estimate: nat, h: Health)
    requires candidates != [] && Eligible(route, h, estimate, candidates[|candidates| - 1])
    requires BeatsAll(routes, route, candidates[..|candidates| - 1], estimate, h, candidates[|candidates| - 1])
    ensures IsFirstLeast(routes, route, candidates, estimate, h, |candidates| - 1)
  {
    LeastNext(routes, route, candidates, estimate, h, candidates[|candidates| - 1]);
  }

  lemma NoneIsBeaten(routes: Routes, route: TaskRoute, candidates: seq<Backend>, estimate: nat, h: Health, b: Backend)
    requires forall c :: c in candidates ==> !Eligible(route, h, estimate, c)
    ensures BeatsAll(routes, route, candidates, estimate, h, b)
  {
  }

  /**
   * A choice is made exactly when some candidate is eligible; it is the first
   * eligible candidate of least rank.
   */
  lemma {:induction false} ChoiceIsLeast(routes: Routes, route: TaskRoute, candidates: seq<Backend>, estimate: nat,
                                         h: Health)
    returns (i: nat)
    ensures Choose(routes, route, candidates, estimate, h).None? ==>
              forall b :: b in candidates ==> !Eligible(route, h, estimate, b)
    ensures Choose(routes, route, candidates, estimate, h).Some? ==>
              && IsFirstLeast(routes, route, candidates, estimate, h, i)
              && Choose(routes, route, candidates, estimate, h) == Some(candidates[i])
  {
    if candidates == [] {
      i := 0;
    } else {
      var n := |candidates| - 1;
      var init, last := candidates[..n], candidates[n];
      i := ChoiceIsLeast(routes, route, init, estimate, h);
      var best := Choose(routes, route, init, estimate, h);
      if !Eligible(route, h, estimate, last) {
        if best.Some? {
          FirstLeastStays(routes, route, candidates, estimate, h, i);
        }
      } else if best.None? {
        NoneIsBeaten(routes, route, init, estimate, h, last);
        FirstLeastIsLast(routes, route, candidates, estimate, h);
        i := n;
      } else if RankOf(routes, route, h, last).Before(RankOf(routes, route, h, best.value)) {
        BetterBeatsAll(routes, route, init, estimate, h, last, best.value);
        FirstLeastIsLast(routes, route, candidates, estimate, h);
        i := n;
      } else {
        FirstLeastStays(routes, route, candidates, estimate, h, i);
      }
    }
  }

  // ---------------------------------------------------------------------
  // What a choice prefers
  // ---------------------------------------------------------------------

  /** Some other route is assigned to provider `id` in a role. */
  ghost predicate HasOther(routes: Routes, spec: RouteSpec, id: string, role: Role) {
    exists k :: k in routes && (routes[k].spec.id != spec.id || routes[k].spec.thread != spec.thread)
                && routes[k].assignment == Some(id) && routes[k].spec.role == role
  }

  /** No other route is assigned to the provider and it has no request in flight. */
  ghost predicate IsFree(routes: Routes, spec: RouteSpec, h: Health, b: Backend) {
    !HasOther(routes, spec, b.id, Main) && !HasOther(routes, spec, b.id, Auxiliary) && h.inFlight(b) == 0
  }

  /** Only auxiliary routes are assigned to the provider, though it may have requests of others in flight. */
  ghost predicate OnlyAuxiliaries(routes: Routes, spec: RouteSpec, b: Backend) {
    !HasOther(routes, spec, b.id, Main) && HasOther(routes, spec, b.id, Auxiliary)
  }

  /**
   * Provider `a` suits the role of a route better than `b`. An auxiliary route
   * goes where others are, or else to a free provider; any other route goes to
   * a free provider, or else to one that only auxiliaries use.
   */
  ghost predicate SuitsBetter(routes: Routes, spec: RouteSpec, h: Health, a: Backend, b: Backend) {
    if spec.role == Auxiliary then
      if HasOther(routes, spec, a.id, Auxiliary) || HasOther(routes, spec, b.id, Auxiliary)
      then !HasOther(routes, spec, b.id, Auxiliary)
      else IsFree(routes, spec, h, a) && !IsFree(routes, spec, h, b)
    else
      if IsFree(routes, spec, h, a) || IsFree(routes, spec, h, b) then !IsFree(routes, spec, h, b)
      else OnlyAuxiliaries(routes, spec, a) && !OnlyAuxiliaries(routes, spec, b)
  }

  /** The other routes assigned to a provider and the requests it has in flight. */
  ghost function LoadOn(routes: Routes, spec: RouteSpec, h: Health, b: Backend): nat {
    |set k | k in routes && (routes[k].spec.id != spec.id || routes[k].spec.thread != spec.thread)
           && routes[k].assignment == Some(b.id) && (routes[k].spec.role.Main? || routes[k].spec.role.Auxiliary?)|
    + h.inFlight(b)
  }

  ghost predicate ListedBefore(ids: seq<string>, first: string, second: string) {
    exists p :: 0 <= p < |ids| && ids[p] == first && forall q :: 0 <= q <= p ==> ids[q] != second
  }

  /**
   * Provider `a` is better than `b`: not under soft pressure, or the one the
   * route has, or suited better, or less loaded, or with fewer requests in
   * flight, or listed first; what comes first decides.
   */
  ghost predicate Prefers(routes: Routes, route: TaskRoute, h: Health, a: Backend, b: Backend) {
    if h.soft(a) != h.soft(b) then h.soft(b)
    else if (route.assignment == Some(a.id)) != (route.assignment == Some(b.id)) then route.assignment == Some(a.id)
    else if SuitsBetter(routes, route.spec, h, a, b) || SuitsBetter(routes, route.spec, h, b, a)
    then SuitsBetter(routes, route.spec, h, a, b)
    else if LoadOn(routes, route.spec, h, a) != LoadOn(routes, route.spec, h, b)
    then LoadOn(routes, route.spec, h, a) < LoadOn(routes, route.spec, h, b)
    else if h.inFlight(a) != h.inFlight(b) then h.inFlight(a) < h.inFlight(b)
    else ListedBefore(route.spec.providers, a.id, b.id)
  }

  lemma OthersAreOther(routes: Routes, spec: RouteSpec, id: string, role: Role)
    ensures |Others(routes, spec, id, role)| > 0 <==> HasOther(routes, spec, id, role)
  {
    var others := Others(routes, spec, id, role);
    if HasOther(routes, spec, id, role) {
      var k :| k in routes && (routes[k].spec.id != spec.id || routes[k].spec.thread != spec.thread)
        && routes[k].assignment == Some(id) && routes[k].spec.role == role;
      assert k in others;
    }
    if |others| > 0 {
      var k :| k in others;
      assert k in routes;
    }
  }

  lemma OthersAreLoad(routes: Routes, spec: RouteSpec, h: Health, b: Backend)
    ensures |Others(routes, spec, b.id, Main)| + |Others(routes, spec, b.id, Auxiliary)| + h.inFlight(b)
            == LoadOn(routes, spec, h, b)
  {
    var main, auxiliary := Others(routes, spec, b.id, Main), Others(routes, spec, b.id, Auxiliary);
    assert main !! auxiliary;
    var all := set k | k in routes && (routes[k].spec.id != spec.id || routes[k].spec.thread != spec.thread)
      && routes[k].assignment == Some(b.id) && (routes[k].spec.role.Main? || routes[k].spec.role.Auxiliary?);
    assert all == main + auxiliary;
  }

  lemma {:induction false} PositionIsFirst(ids: seq<string>, id: string)
    ensures forall q :: 0 <= q < Position(ids, id) ==> ids[q] != id
  {
    if ids == [] || ids[0] == id {
    } else {
      PositionIsFirst(ids[1..], id);
      assert forall q :: 1 <= q < |ids| ==> ids[q] == ids[1..][q - 1];
    }
  }

  lemma PositionsAreListed(ids: seq<string>, first: string, second: string)
    requires first in ids && second in ids
    ensures Position(ids, first) < Position(ids, second) <==> ListedBefore(ids, first, second)
  {
    PositionIsFirst(ids, first);
    PositionIsFirst(ids, second);
    if Position(ids, first) < Position(ids, second) {
      assert ids[Position(ids, first)] == first;
    }
  }

  lemma GradesSuit(routes: Routes, spec: RouteSpec, h: Health, a: Backend, b: Backend)
    ensures GradeFor(spec.role, |Others(routes, spec, a.id, Main)|, |Others(routes, spec, a.id, Auxiliary)|,
                     h.inFlight(a))
            < GradeFor(spec.role, |Others(routes, spec, b.id, Main)|, |Others(routes, spec, b.id, Auxiliary)|,
                       h.inFlight(b))
            <==> SuitsBetter(routes, spec, h, a, b)
  {
    OthersAreOther(routes, spec, a.id, Main);
    OthersAreOther(routes, spec, a.id, Auxiliary);
    OthersAreOther(routes, spec, b.id, Main);
    OthersAreOther(routes, spec, b.id, Auxiliary);
  }

  lemma RankIsPreference(routes: Routes, route: TaskRoute, h: Health, a: Backend, b: Backend)
    requires a.id in route.spec.providers && b.id in route.spec.providers
    ensures RankOf(routes, route, h, a).Before(RankOf(routes, route, h, b)) <==> Prefers(routes, route, h, a, b)
  {
    GradesSuit(routes, route.spec, h, a, b);
    GradesSuit(routes, route.spec, h, b, a);
    OthersAreLoad(routes, route.spec, h, a);
    OthersAreLoad(routes, route.spec, h, b);
    PositionsAreListed(route.spec.providers, a.id, b.id);
  }

  /** A provider a route may get: enabled, with a key, listed, within budget and out of cooldown. */
  ghost predicate IsOpen(route: TaskRoute, h: Health, estimate: nat, b: Backend) {
    && b.enabled && b.hasKey && (exists i :: 0 <= i < |route.spec.providers| && route.spec.providers[i] == b.id)
    && h.admits(b, estimate) && !h.cooling(b)
  }

  /**
   * A choice is made exactly when some candidate is open to the route. No open
   * candidate is preferred to what is chosen, and what is chosen is preferred
   * to every open one before it.
   */
  lemma ChoiceIsPreferred(routes: Routes, route: TaskRoute, candidates: seq<Backend>, estimate: nat, h: Health)
    returns (i: nat)
    ensures var choice := Choose(routes, route, candidates, estimate, h);
            && (choice.Some? <==> exists b :: b in candidates && IsOpen(route, h, estimate, b))
            && (choice.Some? ==>
                  && i < |candidates| && candidates[i] == choice.value && IsOpen(route, h, estimate, choice.value)
                  && (forall j :: 0 <= j < |candidates| && IsOpen(route, h, estimate, candidates[j]) ==>
                        && !Prefers(routes, route, h, candidates[j], choice.value)
                        && (j < i ==> Prefers(routes, route, h, choice.value, candidates[j]))))
  {
    i := ChoiceIsLeast(routes, route, candidates, estimate, h);
    var choice := Choose(routes, route, candidates, estimate, h);
    if choice.Some? {
      var b := choice.value;
      forall j | 0 <= j < |candidates| && IsOpen(route, h, estimate, candidates[j])
        ensures !Prefers(routes, route, h, candidates[j], b)
        ensures j < i ==> Prefers(routes, route, h, b, candidates[j])
      {
        assert Eligible(route, h, estimate, candidates[j]);
        RankIsPreference(routes, route, h, candidates[j], b);
        RankIsPreference(routes, route, h, b, candidates[j]);
        assert j < i ==> candidates[..i][j] == candidates[j];
      }
    } else {
      forall b | b in candidates ensures !IsOpen(route, h, estimate, b) {
        assert !Eligible(route, h, estimate, b);
      }
    }
  }

  /** Candidate `b` is open to the route, and no other open one is preferred to it. */
  ghost predicate IsBest(routes: Routes, route: TaskRoute, candidates: seq<Backend>, estimate: nat, h: Health,
                         b: Backend) {
    && b in candidates && IsOpen(route, h, estimate, b)
    && forall c :: c in candidates && IsOpen(route, h, estimate, c) ==> !Prefers(routes, route, h, c, b)
  }

  lemma ChoiceIsBest(routes: Routes, route: TaskRoute, candidates: seq<Backend>, estimate: nat, h: Health)
    ensures var choice := Choose(routes, route, candidates, estimate, h);
            if choice.Some? then IsBest(routes, route, candidates, estimate, h, choice.value)
            else forall b :: b in candidates ==> !IsOpen(route, h, estimate, b)
  {
    var i := ChoiceIsPreferred(routes, route, candidates, estimate, h);
  }
}
