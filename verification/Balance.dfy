/**
 * Load balance of the routing table (src/proxy/runtime.rs, `choose_assignment`
 * and `set_route`): main routes spread over a shared list of providers,
 * auxiliary routes share one.
 */
module Balance {
  import opened Prelude
  import opened Config
  import opened Routing
  import opened RouteTables
  import TokenBudget

  /** All providers of the pool can be used and are below their soft limits. */
  ghost predicate Healthy(h: Health, config: seq<Backend>, pool: seq<string>) {
    forall b :: b in config && b.id in pool ==> h.admits(b, 0) && !h.soft(b) && !h.cooling(b)
  }

  ghost predicate Idle(h: Health, config: seq<Backend>, pool: seq<string>) {
    forall b :: b in config && b.id in pool ==> h.inFlight(b) == 0
  }

  /** All routes have one role, one list of providers and one of them assigned. */
  ghost predicate Uniform(routes: Routes, role: Role, pool: seq<string>) {
    forall k :: k in routes ==>
      && routes[k].spec.role == role && routes[k].spec.providers == pool
      && routes[k].assignment.Some? && routes[k].assignment.value in pool
  }

  ghost function AssignedTo(routes: Routes, id: string): set<string> {
    set k | k in routes && routes[k].assignment == Some(id)
  }

  ghost function LoadOf(routes: Routes, id: string): nat {
    |AssignedTo(routes, id)|
  }

  /** The loads of any two providers differ by at most one. */
  ghost predicate Spread(routes: Routes, pool: seq<string>) {
    forall p, q :: p in pool && q in pool ==> LoadOf(routes, p) <= LoadOf(routes, q) + 1
  }

  /** A registration that replaces its own route and discards a placeholder besides. */
  ghost predicate Discards(routes: Routes, spec: RouteSpec) {
    spec.Key() != spec.id && HasPlaceholder(routes, spec) && spec.Key() in routes
  }

  /** A registration for the role and the pool, with the providers in good health. */
  ghost predicate Regular(t: Table, spec: RouteSpec, h: Health, role: Role, pool: seq<string>) {
    && spec.role == role && spec.providers == pool
    && Healthy(h, t.config, pool) && Register(t, spec, h).Ok?
  }

  // ---------------------------------------------------------------------
  // What one registration chooses
  // ---------------------------------------------------------------------

  /** A healthy pool always has a provider for a registration. */
  lemma PoolIsEligible(t: Table, spec: RouteSpec, h: Health, role: Role, pool: seq<string>, id: string)
    returns (b: Backend)
    requires Regular(t, spec, h, role, pool) && id in pool
    ensures spec.providers != [] && b in t.config && b.id == id && Eligible(Candidate(t, spec), h, 0, b)
  {
    CompatibleIsServed(spec, t.config);
    var i :| 0 <= i < |pool| && pool[i] == id;
    assert FindUsable(t.config, spec.providers[i]).Some?;
    b := FindUsable(t.config, id).value;
  }

  /** A route with an assigned provider of the pool keeps it. */
  lemma EarlierStays(t: Table, spec: RouteSpec, h: Health, role: Role, pool: seq<string>)
    requires Regular(t, spec, h, role, pool) && Uniform(t.routes, role, pool) && !role.NoRole?
    requires Earlier(t.routes, spec).Some?
    ensures Register(t, spec, h).value.routes[spec.Key()].assignment == Earlier(t.routes, spec).value.assignment
  {
    var id := Earlier(t.routes, spec).value.assignment.value;
    var b := PoolIsEligible(t, spec, h, role, pool, id);
    assert Eligible(Continued(t, spec), h, 0, b) && !h.soft(b);
    RegistrationIsSticky(t, spec, h, id);
  }

  /** No other route has the thread of a new one. */
  lemma NewIsAlone(t: Table, spec: RouteSpec, k: string)
    requires Sound(t) && ValidId(spec.id) && Earlier(t.routes, spec).None? && k in t.routes
    requires t.routes[k].spec.role == spec.role
    ensures !t.routes[k].spec.SameThread(spec)
  {
  }

  lemma OthersOfNew(t: Table, spec: RouteSpec, role: Role, pool: seq<string>, wait: Option<real>, id: string)
    requires Sound(t) && Uniform(t.routes, role, pool) && ValidId(spec.id) && Earlier(t.routes, spec).None?
    requires spec.role == role
    ensures Others(t.routes, spec.(wait := wait), id, role) == AssignedTo(t.routes, id)
    ensures forall other :: other != role ==> Others(t.routes, spec.(wait := wait), id, other) == {}
  {
    forall k | k in AssignedTo(t.routes, id) ensures k in Others(t.routes, spec.(wait := wait), id, role) {
      NewIsAlone(t, spec, k);
    }
  }

  /** The rank of a provider for a new main route depends on its load and its position only. */
  lemma RankForNewMain(t: Table, spec: RouteSpec, h: Health, pool: seq<string>, b: Backend)
    requires Sound(t) && Uniform(t.routes, Main, pool) && Regular(t, spec, h, Main, pool)
    requires Earlier(t.routes, spec).None?
    requires b in t.config && b.id in pool && Idle(h, t.config, pool) && spec.providers != []
    ensures var load := LoadOf(t.routes, b.id);
            RankOf(t.routes, Candidate(t, spec), h, b)
            == Rank(0, 1, if load == 0 then 0 else 2, load, 0, Position(pool, b.id))
  {
    var route := Candidate(t, spec);
    OthersOfNew(t, spec, Main, pool, route.spec.wait, b.id);
    RankWithOthers(t.routes, route, h, b, LoadOf(t.routes, b.id));
  }

  /** The rank of an idle provider for an unassigned main route, from the numbers of its other routes. */
  lemma RankWithOthers(routes: Routes, route: TaskRoute, h: Health, b: Backend, main: nat)
    requires |Others(routes, route.spec, b.id, Main)| == main && Others(routes, route.spec, b.id, Auxiliary) == {}
    requires route.spec.role.Main? && route.assignment.None? && h.inFlight(b) == 0 && !h.soft(b)
    ensures RankOf(routes, route, h, b)
            == Rank(0, 1, if main == 0 then 0 else 2, main, 0, Position(route.spec.providers, b.id))
  {
  }

  /** A provider is no more loaded than another, and earlier in the list if equally loaded. */
  ghost predicate Preferable(routes: Routes, pool: seq<string>, p: string, q: string) {
    || LoadOf(routes, p) < LoadOf(routes, q)
    || (LoadOf(routes, p) == LoadOf(routes, q) && Position(pool, p) <= Position(pool, q))
  }

  /** A new main route gets the first provider with the least load. */
  lemma NewMainIsLeast(t: Table, spec: RouteSpec, h: Health, pool: seq<string>) returns (id: string)
    requires Sound(t) && Uniform(t.routes, Main, pool) && Regular(t, spec, h, Main, pool)
    requires Earlier(t.routes, spec).None? && Idle(h, t.config, pool)
    ensures Register(t, spec, h).value.routes[spec.Key()].assignment == Some(id) && id in pool
    ensures forall q :: q in pool ==> Preferable(t.routes, pool, id, q)
  {
    AcceptedIsNonempty(t, spec);
    var route := Candidate(t, spec);
    var first := PoolIsEligible(t, spec, h, Main, pool, pool[0]);
    var i := ChoiceIsLeast(t.routes, route, t.config, 0, h);
    var chosen := t.config[i];
    id := chosen.id;
    RankForNewMain(t, spec, h, pool, chosen);
    forall q | q in pool ensures Preferable(t.routes, pool, id, q) {
      var b := PoolIsEligible(t, spec, h, Main, pool, q);
      RankForNewMain(t, spec, h, pool, b);
      assert !RankOf(t.routes, route, h, b).Before(RankOf(t.routes, route, h, chosen));
    }
  }

  // ---------------------------------------------------------------------
  // Loads after one registration
  // ---------------------------------------------------------------------

  /** 1 when a route is there and assigned to `id`. */
  ghost function Share(routes: Routes, k: string, id: string): nat {
    if k in routes && routes[k].assignment == Some(id) then 1 else 0
  }

  lemma LoadAfterPut(routes: Routes, k: string, route: TaskRoute, id: string)
    ensures LoadOf(routes[k := route], id)
            == LoadOf(routes, id) - Share(routes, k, id) + if route.assignment == Some(id) then 1 else 0
  {
    var rest := AssignedTo(routes, id) - {k};
    assert AssignedTo(routes, id) == if Share(routes, k, id) == 1 then rest + {k} else rest;
    assert AssignedTo(routes[k := route], id) == if route.assignment == Some(id) then rest + {k} else rest;
  }

  lemma LoadAfterRemove(routes: Routes, k: string, id: string)
    ensures LoadOf(routes - {k}, id) == LoadOf(routes, id) - Share(routes, k, id)
  {
    var rest := AssignedTo(routes, id) - {k};
    assert AssignedTo(routes, id) == if Share(routes, k, id) == 1 then rest + {k} else rest;
    assert AssignedTo(routes - {k}, id) == rest;
  }

  lemma LoadAfterRegister(t: Table, spec: RouteSpec, h: Health, id: string)
    requires Register(t, spec, h).Ok?
    ensures var after := Register(t, spec, h).value.routes;
            var replaced := if spec.Key() != spec.id && Placeholder(t.routes, spec).Some?
                            then Share(t.routes, spec.id, id) else 0;
            LoadOf(after, id)
            == LoadOf(t.routes, id) - replaced - Share(t.routes, spec.Key(), id)
               + if after[spec.Key()].assignment == Some(id) then 1 else 0
  {
    var route := Register(t, spec, h).value.routes[spec.Key()];
    LoadAfterPut(Migrated(t.routes, spec), spec.Key(), route, id);
    LoadAfterRemove(t.routes, spec.id, id);
  }

  ghost predicate UniformRoute(route: TaskRoute, role: Role, pool: seq<string>) {
    route.spec.role == role && route.spec.providers == pool && route.assignment.Some? && route.assignment.value in pool
  }

  /** The provider of a registered route is the one chosen for it. */
  lemma RegisteredChoice(t: Table, spec: RouteSpec, h: Health)
    requires Register(t, spec, h).Ok? && !spec.role.NoRole?
    ensures spec.providers != []
    ensures Register(t, spec, h).value.routes
            == Migrated(t.routes, spec)[spec.Key() :=
                 WithChoice(Candidate(t, spec), Choose(t.routes, Candidate(t, spec), t.config, 0, h))]
  {
  }

  lemma NewIsUniform(t: Table, spec: RouteSpec, h: Health, role: Role, pool: seq<string>)
    requires Regular(t, spec, h, role, pool) && !role.NoRole? && spec.providers != []
    ensures UniformRoute(WithChoice(Candidate(t, spec), Choose(t.routes, Candidate(t, spec), t.config, 0, h)),
                         role, pool)
  {
    var b := PoolIsEligible(t, spec, h, role, pool, pool[0]);
    var i := ChoiceIsLeast(t.routes, Candidate(t, spec), t.config, 0, h);
  }

  lemma PutStaysUniform(routes: Routes, spec: RouteSpec, route: TaskRoute, role: Role, pool: seq<string>)
    requires Uniform(routes, role, pool) && UniformRoute(route, role, pool)
    ensures Uniform(Migrated(routes, spec)[spec.Key() := route], role, pool)
  {
  }

  lemma StaysUniform(t: Table, spec: RouteSpec, h: Health, role: Role, pool: seq<string>)
    requires Uniform(t.routes, role, pool) && Regular(t, spec, h, role, pool) && !role.NoRole?
    ensures Uniform(Register(t, spec, h).value.routes, role, pool)
  {
    RegisteredChoice(t, spec, h);
    NewIsUniform(t, spec, h, role, pool);
    PutStaysUniform(t.routes, spec,
                    WithChoice(Candidate(t, spec), Choose(t.routes, Candidate(t, spec), t.config, 0, h)), role, pool);
  }

  /** A new main route adds one to the load of a least loaded provider. */
  lemma LoadsAfterNew(t: Table, spec: RouteSpec, h: Health, pool: seq<string>) returns (least: string)
    requires Sound(t) && Uniform(t.routes, Main, pool) && Regular(t, spec, h, Main, pool)
    requires Idle(h, t.config, pool) && Earlier(t.routes, spec).None?
    ensures least in pool && forall q :: q in pool ==> Preferable(t.routes, pool, least, q)
    ensures Register(t, spec, h).value.routes[spec.Key()].assignment == Some(least)
    ensures forall p :: p in pool ==>
              LoadOf(Register(t, spec, h).value.routes, p) == LoadOf(t.routes, p) + if p == least then 1 else 0
  {
    least := NewMainIsLeast(t, spec, h, pool);
    forall p | p in pool
      ensures LoadOf(Register(t, spec, h).value.routes, p) == LoadOf(t.routes, p) + if p == least then 1 else 0
    {
      LoadAfterRegister(t, spec, h, p);
    }
  }

  /** A main route that is registered again moves no load; a discarded placeholder takes its own along. */
  lemma LoadsAfterAgain(t: Table, spec: RouteSpec, h: Health, pool: seq<string>)
    requires Uniform(t.routes, Main, pool) && Regular(t, spec, h, Main, pool) && Earlier(t.routes, spec).Some?
    ensures forall p :: p in pool ==>
              LoadOf(Register(t, spec, h).value.routes, p)
              == LoadOf(t.routes, p) - if Discards(t.routes, spec) then Share(t.routes, spec.id, p) else 0
  {
    EarlierStays(t, spec, h, Main, pool);
    forall p | p in pool
      ensures LoadOf(Register(t, spec, h).value.routes, p)
              == LoadOf(t.routes, p) - if Discards(t.routes, spec) then Share(t.routes, spec.id, p) else 0
    {
      LoadAfterRegister(t, spec, h, p);
    }
  }

  /** The provider of a discarded placeholder is one of the most loaded. */
  ghost predicate DiscardIsHarmless(routes: Routes, spec: RouteSpec, pool: seq<string>) {
    && spec.id in routes && routes[spec.id].assignment.Some?
    && forall q :: q in pool ==> LoadOf(routes, q) <= LoadOf(routes, routes[spec.id].assignment.value)
  }

  lemma AgainKeepsSpread(t: Table, spec: RouteSpec, h: Health, pool: seq<string>)
    requires Uniform(t.routes, Main, pool) && Regular(t, spec, h, Main, pool)
    requires Spread(t.routes, pool) && Earlier(t.routes, spec).Some?
    ensures Spread(Register(t, spec, h).value.routes, pool) <==>
              (Discards(t.routes, spec) ==> DiscardIsHarmless(t.routes, spec, pool))
  {
    var after := Register(t, spec, h).value.routes;
    LoadsAfterAgain(t, spec, h, pool);
    if Discards(t.routes, spec) {
      SpreadAfterDiscard(t.routes, after, pool, t.routes[spec.id].assignment.value);
    } else {
      SpreadAfterNone(t.routes, after, pool);
    }
  }

  /**
   * From a spread table, a main registration leaves the loads spread exactly
   * when it discards no placeholder or one of a most loaded provider.
   */
  lemma RegistrationKeepsSpread(t: Table, spec: RouteSpec, h: Health, pool: seq<string>)
    requires Sound(t) && Uniform(t.routes, Main, pool) && Regular(t, spec, h, Main, pool)
    requires Idle(h, t.config, pool) && Spread(t.routes, pool)
    ensures Spread(Register(t, spec, h).value.routes, pool) <==>
              (Discards(t.routes, spec) ==> DiscardIsHarmless(t.routes, spec, pool))
  {
    if Earlier(t.routes, spec).None? {
      var least := LoadsAfterNew(t, spec, h, pool);
      SpreadAfterNew(t.routes, Register(t, spec, h).value.routes, pool, least);
    } else {
      AgainKeepsSpread(t, spec, h, pool);
    }
  }

  lemma SpreadAfterNone(before: Routes, after: Routes, pool: seq<string>)
    requires Spread(before, pool) && forall p :: p in pool ==> LoadOf(after, p) == LoadOf(before, p)
    ensures Spread(after, pool)
  {
  }

  lemma SpreadAfterNew(before: Routes, after: Routes, pool: seq<string>, least: string)
    requires Spread(before, pool) && least in pool
    requires forall q :: q in pool ==> LoadOf(before, least) <= LoadOf(before, q)
    requires forall p :: p in pool ==> LoadOf(after, p) == LoadOf(before, p) + if p == least then 1 else 0
    ensures Spread(after, pool)
  {
  }

  lemma SpreadAfterDiscard(before: Routes, after: Routes, pool: seq<string>, id: string)
    requires Spread(before, pool) && id in pool
    requires forall p :: p in pool ==> LoadOf(after, p) == LoadOf(before, p) - if p == id then 1 else 0
    ensures Spread(after, pool) <==> forall q :: q in pool ==> LoadOf(before, q) <= LoadOf(before, id)
  {
    if Spread(after, pool) {
      forall q | q in pool ensures LoadOf(before, q) <= LoadOf(before, id) {
        assert LoadOf(after, q) <= LoadOf(after, id) + 1;
      }
    }
  }

  // ---------------------------------------------------------------------
  // Sequences of registrations
  // ---------------------------------------------------------------------

  /** Registrations for one role and pool, each with the pool in good health and, for main routes, idle. */
  ghost predicate AllRegular(t: Table, ops: seq<Op>, role: Role, pool: seq<string>) {
    forall i :: 0 <= i < |ops| ==>
      && ops[i].DoRegister? && ops[i].spec.role == role && ops[i].spec.providers == pool
      && Healthy(ops[i].h, t.config, pool) && (role.Main? ==> Idle(ops[i].h, t.config, pool))
  }

  lemma AllRegularPrefix(t: Table, ops: seq<Op>, role: Role, pool: seq<string>)
    requires AllRegular(t, ops, role, pool) && ops != []
    ensures AllRegular(t, ops[..|ops| - 1], role, pool)
  {
    var init := ops[..|ops| - 1];
    forall i | 0 <= i < |init| ensures init[i] == ops[i] {}
  }

  /** Such registrations, accepted or not, keep the table sound and uniform. */
  lemma {:induction false} StaysRegular(t: Table, ops: seq<Op>, role: Role, pool: seq<string>)
    requires Sound(t) && t.routes == map[] && AllRegular(t, ops, role, pool) && !role.NoRole?
    ensures var after := ApplyAll(t, ops); Sound(after) && after.config == t.config && Uniform(after.routes, role, pool)
  {
    RunKeepsSound(t, ops);
    if ops == [] {
    } else {
      var init, last := ops[..|ops| - 1], ops[|ops| - 1];
      AllRegularPrefix(t, ops, role, pool);
      StaysRegular(t, init, role, pool);
      var before := ApplyAll(t, init);
      if Register(before, last.spec, last.h).Ok? {
        StaysUniform(before, last.spec, last.h, role, pool);
      }
    }
  }

  /** After every prefix of the registrations the loads differ by at most one. */
  ghost predicate AlwaysSpread(t: Table, ops: seq<Op>, pool: seq<string>) {
    Spread(ApplyAll(t, ops).routes, pool) && (ops == [] || AlwaysSpread(t, ops[..|ops| - 1], pool))
  }

  /** An accepted registration that discards a placeholder discards one of a most loaded provider. */
  ghost predicate Harmless(t: Table, op: Op, pool: seq<string>) {
    op.DoRegister? && Register(t, op.spec, op.h).Ok? && Discards(t.routes, op.spec) ==>
      DiscardIsHarmless(t.routes, op.spec, pool)
  }

  ghost predicate AllHarmless(t: Table, ops: seq<Op>, pool: seq<string>) {
    ops == [] || (AllHarmless(t, ops[..|ops| - 1], pool)
                  && Harmless(ApplyAll(t, ops[..|ops| - 1]), ops[|ops| - 1], pool))
  }

  lemma EmptyIsSpread(routes: Routes, pool: seq<string>)
    requires routes == map[]
    ensures Spread(routes, pool)
  {
    forall p | p in pool ensures LoadOf(routes, p) == 0 {
      assert AssignedTo(routes, p) == {};
    }
  }

  lemma OneMoreRegistration(t: Table, op: Op, pool: seq<string>)
    requires Sound(t) && Uniform(t.routes, Main, pool) && Spread(t.routes, pool)
    requires op.DoRegister? && op.spec.role == Main && op.spec.providers == pool
    requires Healthy(op.h, t.config, pool) && Idle(op.h, t.config, pool)
    ensures Spread(Apply(t, op).routes, pool) <==> Harmless(t, op, pool)
  {
    if Register(t, op.spec, op.h).Ok? {
      RegistrationKeepsSpread(t, op.spec, op.h, pool);
    }
  }

  /**
   * A sequence of main registrations, accepted or not, keeps the loads spread
   * throughout exactly when every placeholder it discards was one of a most
   * loaded provider.
   */
  lemma {:induction false} MainRoutesSpread(t: Table, ops: seq<Op>, pool: seq<string>)
    requires Sound(t) && t.routes == map[] && AllRegular(t, ops, Main, pool)
    ensures AlwaysSpread(t, ops, pool) <==> AllHarmless(t, ops, pool)
  {
    if ops == [] {
      EmptyIsSpread(t.routes, pool);
    } else {
      var init, last := ops[..|ops| - 1], ops[|ops| - 1];
      AllRegularPrefix(t, ops, Main, pool);
      MainRoutesSpread(t, init, pool);
      StaysRegular(t, init, Main, pool);
      assert last == ops[|ops| - 1];
      if AlwaysSpread(t, init, pool) {
        OneMoreRegistration(ApplyAll(t, init), last, pool);
      }
    }
  }

  // ---------------------------------------------------------------------
  // Distinct providers
  // ---------------------------------------------------------------------

  ghost function TotalLoad(routes: Routes, pool: seq<string>): nat {
    if pool == [] then 0 else TotalLoad(routes, pool[..|pool| - 1]) + LoadOf(routes, pool[|pool| - 1])
  }

  /** The routes assigned to a provider of the pool. */
  ghost function Within(routes: Routes, pool: seq<string>): set<string> {
    set k | k in routes && routes[k].assignment.Some? && routes[k].assignment.value in pool
  }

  lemma {:induction false} LoadsAddUp(routes: Routes, pool: seq<string>)
    requires Distinct(pool)
    ensures TotalLoad(routes, pool) == |Within(routes, pool)|
  {
    if pool == [] {
      assert Within(routes, pool) == {};
    } else {
      var init, last := pool[..|pool| - 1], pool[|pool| - 1];
      LoadsAddUp(routes, init);
      assert last !in init;
      assert pool == init + [last];
      assert Within(routes, pool) == Within(routes, init) + AssignedTo(routes, last);
      assert Within(routes, init) !! AssignedTo(routes, last);
    }
  }

  /** If every provider has a route and one has two, there are more routes than providers. */
  lemma {:induction false} TotalIsAtLeast(routes: Routes, pool: seq<string>, extra: string)
    requires forall p :: p in pool ==> LoadOf(routes, p) >= 1 + if p == extra then 1 else 0
    ensures TotalLoad(routes, pool) >= |pool| + if extra in pool then 1 else 0
  {
    if pool == [] {
    } else {
      var init, last := pool[..|pool| - 1], pool[|pool| - 1];
      assert pool == init + [last];
      TotalIsAtLeast(routes, init, extra);
    }
  }

  /** While there are no more main routes than providers, no two of them share one. */
  lemma FewRoutesAreDistinct(routes: Routes, pool: seq<string>, j: string, k: string)
    requires Distinct(pool) && Uniform(routes, Main, pool) && Spread(routes, pool) && |routes| <= |pool|
    requires j in routes && k in routes && j != k
    ensures routes[j].assignment != routes[k].assignment
  {
    var p := routes[j].assignment.value;
    LoadsAddUp(routes, pool);
    assert Within(routes, pool) == routes.Keys;
    if routes[k].assignment == Some(p) {
      TwoAtLeast(AssignedTo(routes, p), j, k);
      forall q | q in pool ensures LoadOf(routes, q) >= 1 + if q == p then 1 else 0 {
        assert LoadOf(routes, p) <= LoadOf(routes, q) + 1;
      }
      TotalIsAtLeast(routes, pool, p);
      assert false;
    }
  }

  lemma TwoAtLeast(s: set<string>, j: string, k: string)
    requires j in s && k in s && j != k
    ensures |s| >= 2
  {
    var rest := s - {j};
    assert k in rest && s == rest + {j};
  }

  // ---------------------------------------------------------------------
  // Auxiliary routes
  // ---------------------------------------------------------------------

  ghost predicate Shared(routes: Routes) {
    forall j, k :: j in routes && k in routes ==> routes[j].assignment == routes[k].assignment
  }

  /** The rank of a provider for a new auxiliary route: used ones first. */
  lemma RankForNewAuxiliary(t: Table, spec: RouteSpec, h: Health, pool: seq<string>, b: Backend)
    requires Sound(t) && Uniform(t.routes, Auxiliary, pool) && Regular(t, spec, h, Auxiliary, pool)
    requires Earlier(t.routes, spec).None? && b in t.config && b.id in pool && spec.providers != []
    ensures var rank := RankOf(t.routes, Candidate(t, spec), h, b);
            rank.soft == 0 && rank.moved == 1 && (rank.grade == 0 <==> LoadOf(t.routes, b.id) > 0)
  {
    var route := Candidate(t, spec);
    OthersOfNew(t, spec, Auxiliary, pool, route.spec.wait, b.id);
    assert |Others(t.routes, route.spec, b.id, Auxiliary)| == LoadOf(t.routes, b.id);
    assert Others(t.routes, route.spec, b.id, Main) == {};
  }

  /** A new auxiliary route joins the others, whatever is in flight. */
  lemma NewAuxiliaryJoins(t: Table, spec: RouteSpec, h: Health, pool: seq<string>, k: string)
    requires Sound(t) && Uniform(t.routes, Auxiliary, pool) && Shared(t.routes) && k in t.routes
    requires Regular(t, spec, h, Auxiliary, pool) && Earlier(t.routes, spec).None?
    ensures Register(t, spec, h).value.routes[spec.Key()].assignment == t.routes[k].assignment
  {
    AcceptedIsNonempty(t, spec);
    var id := t.routes[k].assignment.value;
    var route := Candidate(t, spec);
    var b := PoolIsEligible(t, spec, h, Auxiliary, pool, id);
    var i := ChoiceIsLeast(t.routes, route, t.config, 0, h);
    var chosen := t.config[i];
    RankForNewAuxiliary(t, spec, h, pool, b);
    RankForNewAuxiliary(t, spec, h, pool, chosen);
    assert k in AssignedTo(t.routes, id);
    assert !RankOf(t.routes, route, h, b).Before(RankOf(t.routes, route, h, chosen));
    assert AssignedTo(t.routes, chosen.id) != {};
    var other :| other in AssignedTo(t.routes, chosen.id);
    assert t.routes[other].assignment == t.routes[k].assignment;
  }

  lemma PutStaysShared(routes: Routes, spec: RouteSpec, route: TaskRoute)
    requires Shared(routes) && forall k :: k in routes ==> routes[k].assignment == route.assignment
    ensures Shared(Migrated(routes, spec)[spec.Key() := route])
  {
  }

  lemma RegistrationStaysShared(t: Table, spec: RouteSpec, h: Health, pool: seq<string>)
    requires Sound(t) && Uniform(t.routes, Auxiliary, pool) && Shared(t.routes) && Regular(t, spec, h, Auxiliary, pool)
    ensures Shared(Register(t, spec, h).value.routes)
  {
    var route := Register(t, spec, h).value.routes[spec.Key()];
    forall k | k in t.routes ensures t.routes[k].assignment == route.assignment {
      if Earlier(t.routes, spec).None? {
        NewAuxiliaryJoins(t, spec, h, pool, k);
      } else {
        EarlierStays(t, spec, h, Auxiliary, pool);
      }
    }
    PutStaysShared(t.routes, spec, route);
  }

  /** Auxiliary routes alone always share one provider, whatever is in flight and whatever is discarded. */
  lemma {:induction false} AuxiliaryRoutesShare(t: Table, ops: seq<Op>, pool: seq<string>)
    requires Sound(t) && t.routes == map[] && AllRegular(t, ops, Auxiliary, pool)
    ensures Uniform(ApplyAll(t, ops).routes, Auxiliary, pool) && Shared(ApplyAll(t, ops).routes)
  {
    StaysRegular(t, ops, Auxiliary, pool);
    if ops == [] {
    } else {
      var init, last := ops[..|ops| - 1], ops[|ops| - 1];
      AllRegularPrefix(t, ops, Auxiliary, pool);
      AuxiliaryRoutesShare(t, init, pool);
      StaysRegular(t, init, Auxiliary, pool);
      var before := ApplyAll(t, init);
      if Register(before, last.spec, last.h).Ok? {
        RegistrationStaysShared(before, last.spec, last.h, pool);
      }
    }
  }
}
