/**
 * A run from the empty table after which the loads of main routes differ by
 * two (src/proxy/runtime.rs, `set_route`): a route is registered, gets its
 * thread, is registered without it once more, and then with it again, which
 * discards the second placeholder.
 */
module BalanceExample {
  import opened Prelude
  import opened Config
  import opened Routing
  import opened RouteTables
  import opened Balance
  import TokenBudget

  /** Any two routes, a thread, two providers and an owner. */
  datatype Setup = Setup(a: string, thread: string, b: string, p: string, q: string, owner: string,
                         policy: TokenBudget.Policy)
  {
    ghost predicate Valid() {
      ValidId(a) && ValidId(b) && a != b && ValidId(thread) && ValidId(owner) && p != q
    }

    function Pool(): seq<string> {
      [p, q]
    }

    function Spec(id: string, t: string): RouteSpec {
      RouteSpec(id, Pool(), Priority, Some(0.0), 0, owner, owner, owner, t, Main)
    }

    function Key(): string {
      RouteKey(a, thread)
    }

    function Config(): seq<Backend> {
      [Backend(p, true, true, "", policy, 0), Backend(q, true, true, "", policy, 1)]
    }

    function Start(): Table {
      Table(Config(), 0.0, map[], {}, p)
    }
  }

  /** The registrations: a, a with its thread, a, b, a with its thread. */
  function Registrations(e: Setup, h: Health): seq<Op> {
    var placeholder, threaded, other :=
      DoRegister(e.Spec(e.a, ""), h), DoRegister(e.Spec(e.a, e.thread), h), DoRegister(e.Spec(e.b, ""), h);
    [placeholder, threaded, placeholder, other, threaded]
  }

  ghost predicate Ready(e: Setup, h: Health) {
    e.Valid() && Healthy(h, e.Config(), e.Pool()) && Idle(h, e.Config(), e.Pool())
  }

  // ---------------------------------------------------------------------
  // Every registration is accepted
  // ---------------------------------------------------------------------

  /** A table of at most `n` main routes of the one owner. */
  ghost predicate Stage(e: Setup, t: Table, n: nat) {
    && Sound(t) && t.config == e.Config() && t.released == {} && Uniform(t.routes, Main, e.Pool()) && |t.routes| <= n
    && OfOwner(t.routes, e.owner)
  }

  ghost predicate OfOwner(routes: Routes, owner: string) {
    forall k :: k in routes ==> routes[k].spec.run == routes[k].spec.task == routes[k].spec.project == owner
  }

  lemma IsServed(e: Setup, spec: RouteSpec)
    requires e.Valid() && spec.providers == e.Pool()
    ensures Served(spec, e.Config())
  {
    var config := e.Config();
    assert config[0].id == e.p && config[1].id == e.q;
    assert config[1..] == [config[1]];
    assert FindUsable(config, e.p) == Some(config[0]);
    assert FindUsable(config, e.q) == Some(config[1]);
  }

  lemma IsAccepted(e: Setup, t: Table, n: nat, id: string, thread: string)
    requires e.Valid() && Stage(e, t, n) && n < MAX_ROUTES && ValidId(id) && BlankOrValid(thread)
    ensures Accepts(t, e.Spec(id, thread))
  {
    IsServed(e, e.Spec(id, thread));
    CompatibleIsServed(e.Spec(id, thread), e.Config());
  }

  lemma BelongsHere(routes: Routes, spec: RouteSpec, pool: seq<string>)
    requires Uniform(routes, Main, pool) && OfOwner(routes, spec.run) && spec.run == spec.task == spec.project
    requires spec.role == Main
    ensures !BelongsElsewhere(routes, spec)
  {
  }

  lemma StaysOwned(routes: Routes, spec: RouteSpec, route: TaskRoute, owner: string)
    requires OfOwner(routes, owner) && route.spec.run == route.spec.task == route.spec.project == owner
    ensures OfOwner(Migrated(routes, spec)[spec.Key() := route], owner)
  {
  }

  lemma StaysSmall(routes: Routes, spec: RouteSpec, route: TaskRoute)
    ensures |Migrated(routes, spec)[spec.Key() := route]| <= |routes| + 1
  {
    SizeAfterPut(Migrated(routes, spec), spec.Key(), route);
    FewerKeys(Migrated(routes, spec), routes);
  }

  lemma IsRegular(e: Setup, t: Table, n: nat, id: string, thread: string, h: Health)
    requires Ready(e, h) && Stage(e, t, n) && n < MAX_ROUTES && ValidId(id) && BlankOrValid(thread)
    ensures Regular(t, e.Spec(id, thread), h, Main, e.Pool())
  {
    IsAccepted(e, t, n, id, thread);
    BelongsHere(t.routes, e.Spec(id, thread), e.Pool());
  }

  lemma NextStage(e: Setup, t: Table, n: nat, id: string, thread: string, h: Health)
    requires Ready(e, h) && Stage(e, t, n) && n < MAX_ROUTES && ValidId(id) && BlankOrValid(thread)
    ensures Register(t, e.Spec(id, thread), h).Ok?
    ensures Stage(e, Register(t, e.Spec(id, thread), h).value, n + 1)
  {
    var spec := e.Spec(id, thread);
    IsRegular(e, t, n, id, thread, h);
    StaysUniform(t, spec, h, Main, e.Pool());
    RegisterKeepsSound(t, spec, h);
    NextIsOwned(t, spec, h, e.owner);
  }

  lemma NextIsOwned(t: Table, spec: RouteSpec, h: Health, owner: string)
    requires Register(t, spec, h).Ok? && !spec.role.NoRole? && OfOwner(t.routes, owner)
    requires spec.run == spec.task == spec.project == owner
    ensures OfOwner(Register(t, spec, h).value.routes, owner)
    ensures |Register(t, spec, h).value.routes| <= |t.routes| + 1
  {
    RegisteredChoice(t, spec, h);
    var route := WithChoice(Candidate(t, spec), Choose(t.routes, Candidate(t, spec), t.config, 0, h));
    StaysOwned(t.routes, spec, route, owner);
    StaysSmall(t.routes, spec, route);
  }

  // ---------------------------------------------------------------------
  // What each registration does
  // ---------------------------------------------------------------------

  /** Which of the three keys are in the table, the provider at `a`, and the loads. */
  datatype View = View(a: Option<string>, threaded: bool, b: bool, p: nat, q: nat)

  ghost predicate Shows(e: Setup, routes: Routes, v: View) {
    && (e.a in routes <==> v.a.Some?) && (v.a.Some? ==> routes[e.a].assignment == v.a)
    && (e.Key() in routes <==> v.threaded) && (e.b in routes <==> v.b)
    && LoadOf(routes, e.p) == v.p && LoadOf(routes, e.q) == v.q
  }

  lemma KeyDiffers(e: Setup)
    requires e.Valid()
    ensures e.Key() != e.a && e.Key() != e.b
  {
    assert e.Key()[|e.a|] == NUL;
  }

  /** A provider that no other one is preferable to is the less loaded one, the first if both are equal. */
  lemma LeastOfTwo(routes: Routes, p: string, q: string, least: string)
    requires p != q && least in [p, q]
    requires forall x :: x in [p, q] ==> Preferable(routes, [p, q], least, x)
    ensures least == if LoadOf(routes, p) <= LoadOf(routes, q) then p else q
  {
    assert [p, q][0] == p && [p, q][1] == q;
    assert Position([p, q], p) == 0 && Position([p, q], q) > 0;
  }

  /** A route without thread is new when its id is free; it takes the less loaded provider, the first one if equal. */
  lemma TakesLeast(e: Setup, t: Table, n: nat, id: string, h: Health) returns (least: string)
    requires Ready(e, h) && Stage(e, t, n) && n < MAX_ROUTES && ValidId(id) && id !in t.routes
    ensures Register(t, e.Spec(id, ""), h).Ok?
    ensures least == if LoadOf(t.routes, e.p) <= LoadOf(t.routes, e.q) then e.p else e.q
    ensures var after := Register(t, e.Spec(id, ""), h).value.routes;
            && id in after && after[id].assignment == Some(least)
            && LoadOf(after, e.p) == LoadOf(t.routes, e.p) + (if least == e.p then 1 else 0)
            && LoadOf(after, e.q) == LoadOf(t.routes, e.q) + (if least == e.q then 1 else 0)
  {
    IsRegular(e, t, n, id, "", h);
    PoolIs(e);
    least := LoadsAfterNew(t, e.Spec(id, ""), h, e.Pool());
    LeastOfTwo(t.routes, e.p, e.q, least);
  }

  lemma PoolIs(e: Setup)
    ensures e.p in e.Pool() && e.q in e.Pool()
  {
    assert e.Pool()[0] == e.p && e.Pool()[1] == e.q;
  }

  /** The other routes stay as they were, except for a placeholder that is replaced. */
  lemma OthersStay(t: Table, spec: RouteSpec, h: Health, k: string)
    requires Register(t, spec, h).Ok? && !spec.role.NoRole?
    ensures var after := Register(t, spec, h).value.routes;
            && spec.Key() in after
            && (k != spec.Key() ==>
                  (k in after <==> k in Migrated(t.routes, spec)) && (k in after ==> after[k] == t.routes[k]))
  {
    RegisteredChoice(t, spec, h);
  }

  /** A placeholder is the route at its own id, without a thread. */
  lemma IsPlaceholder(e: Setup, t: Table, n: nat)
    requires e.Valid() && Stage(e, t, n) && e.a in t.routes
    ensures Placeholder(t.routes, e.Spec(e.a, e.thread)) == Some(t.routes[e.a])
  {
    var spec := t.routes[e.a].spec;
    assert GoodRoute(e.a, t.routes[e.a], t.config, t.released);
    RouteKeyIsInjective(spec.id, spec.thread, e.a, "");
  }

  lemma PlaceholderGoes(e: Setup, t: Table, n: nat)
    requires e.Valid() && Stage(e, t, n) && e.a in t.routes
    ensures Migrated(t.routes, e.Spec(e.a, e.thread)) == t.routes - {e.a}
  {
    KeyDiffers(e);
    IsPlaceholder(e, t, n);
  }

  /** With its thread a route takes over from its placeholder. */
  lemma KeysTakenOver(e: Setup, t: Table, n: nat, h: Health)
    requires e.Valid() && Stage(e, t, n) && e.a in t.routes && Register(t, e.Spec(e.a, e.thread), h).Ok?
    ensures var after := Register(t, e.Spec(e.a, e.thread), h).value.routes;
            e.a !in after && e.Key() in after && (e.b in after <==> e.b in t.routes)
  {
    KeyDiffers(e);
    PlaceholderGoes(e, t, n);
    OthersStay(t, e.Spec(e.a, e.thread), h, e.a);
    OthersStay(t, e.Spec(e.a, e.thread), h, e.b);
  }

  /** The placeholder is discarded when the thread has a route already. */
  lemma PlaceholderIsDiscarded(e: Setup, t: Table, n: nat)
    requires e.Valid() && Stage(e, t, n) && e.a in t.routes
    ensures Earlier(t.routes, e.Spec(e.a, e.thread)).Some?
    ensures Discards(t.routes, e.Spec(e.a, e.thread)) <==> e.Key() in t.routes
  {
    KeyDiffers(e);
    IsPlaceholder(e, t, n);
  }

  /** The load of a discarded placeholder goes with it. */
  lemma LoadsTakenOver(e: Setup, t: Table, n: nat, h: Health, x: string)
    requires Ready(e, h) && Stage(e, t, n) && n < MAX_ROUTES && e.a in t.routes && t.routes[e.a].assignment == Some(x)
    ensures Register(t, e.Spec(e.a, e.thread), h).Ok?
    ensures var after := Register(t, e.Spec(e.a, e.thread), h).value.routes;
            && LoadOf(after, e.p) == LoadOf(t.routes, e.p) - (if e.Key() in t.routes && x == e.p then 1 else 0)
            && LoadOf(after, e.q) == LoadOf(t.routes, e.q) - (if e.Key() in t.routes && x == e.q then 1 else 0)
  {
    IsRegular(e, t, n, e.a, e.thread, h);
    PlaceholderIsDiscarded(e, t, n);
    PoolIs(e);
    LoadsAfterAgain(t, e.Spec(e.a, e.thread), h, e.Pool());
  }

  // ---------------------------------------------------------------------
  // The five registrations
  // ---------------------------------------------------------------------

  ghost predicate At(e: Setup, t: Table, n: nat, v: View) {
    Stage(e, t, n) && Shows(e, t.routes, v)
  }

  /** What a table shows after a route without thread took the less loaded provider. */
  function Taken(v: View, isA: bool, e: Setup): View {
    var placed := if isA then v.(a := Some(if v.p <= v.q then e.p else e.q)) else v.(b := true);
    if v.p <= v.q then placed.(p := v.p + 1) else placed.(q := v.q + 1)
  }

  lemma ShowsTaken(e: Setup, before: Routes, after: Routes, v: View, isA: bool, least: string)
    requires e.Valid() && Shows(e, before, v) && least == if v.p <= v.q then e.p else e.q
    requires e.Key() in after <==> e.Key() in before
    requires if isA then e.a in after && after[e.a].assignment == Some(least) && (e.b in after <==> e.b in before)
             else e.b in after && (e.a in after <==> e.a in before) && (e.a in before ==> after[e.a] == before[e.a])
    requires LoadOf(after, e.p) == LoadOf(before, e.p) + (if least == e.p then 1 else 0)
    requires LoadOf(after, e.q) == LoadOf(before, e.q) + (if least == e.q then 1 else 0)
    ensures Shows(e, after, Taken(v, isA, e))
  {
  }

  lemma StepPlaceholder(e: Setup, t: Table, n: nat, h: Health, v: View, w: View) returns (after: Table)
    requires Ready(e, h) && At(e, t, n, v) && n < MAX_ROUTES && v.a.None? && w == Taken(v, true, e)
    ensures after == Apply(t, DoRegister(e.Spec(e.a, ""), h)) && At(e, after, n + 1, w)
  {
    KeyDiffers(e);
    NextStage(e, t, n, e.a, "", h);
    after := Register(t, e.Spec(e.a, ""), h).value;
    var least := TakesLeast(e, t, n, e.a, h);
    OthersStay(t, e.Spec(e.a, ""), h, e.Key());
    OthersStay(t, e.Spec(e.a, ""), h, e.b);
    ShowsTaken(e, t.routes, after.routes, v, true, least);
  }

  lemma StepOther(e: Setup, t: Table, n: nat, h: Health, v: View, w: View) returns (after: Table)
    requires Ready(e, h) && At(e, t, n, v) && n < MAX_ROUTES && !v.b && w == Taken(v, false, e)
    ensures after == Apply(t, DoRegister(e.Spec(e.b, ""), h)) && At(e, after, n + 1, w)
  {
    KeyDiffers(e);
    NextStage(e, t, n, e.b, "", h);
    after := Register(t, e.Spec(e.b, ""), h).value;
    var least := TakesLeast(e, t, n, e.b, h);
    OthersStay(t, e.Spec(e.b, ""), h, e.a);
    OthersStay(t, e.Spec(e.b, ""), h, e.Key());
    ShowsTaken(e, t.routes, after.routes, v, false, least);
  }

  /** What a table shows after the thread took over from the placeholder. */
  function TakenOver(v: View, e: Setup): View {
    var p, q := if v.threaded && v.a == Some(e.p) then 1 else 0, if v.threaded && v.a == Some(e.q) then 1 else 0;
    View(None, true, v.b, if v.p >= p then v.p - p else 0, if v.q >= q then v.q - q else 0)
  }

  lemma ShowsTakenOver(e: Setup, before: Routes, after: Routes, v: View)
    requires Shows(e, before, v) && v.a.Some? && e.a !in after && e.Key() in after && (e.b in after <==> e.b in before)
    requires LoadOf(after, e.p) == LoadOf(before, e.p) - (if e.Key() in before && v.a.value == e.p then 1 else 0)
    requires LoadOf(after, e.q) == LoadOf(before, e.q) - (if e.Key() in before && v.a.value == e.q then 1 else 0)
    ensures Shows(e, after, TakenOver(v, e))
  {
  }

  lemma StepThreaded(e: Setup, t: Table, n: nat, h: Health, v: View, w: View) returns (after: Table)
    requires Ready(e, h) && At(e, t, n, v) && n < MAX_ROUTES && v.a.Some? && w == TakenOver(v, e)
    ensures after == Apply(t, DoRegister(e.Spec(e.a, e.thread), h)) && At(e, after, n + 1, w)
  {
    NextStage(e, t, n, e.a, e.thread, h);
    after := Register(t, e.Spec(e.a, e.thread), h).value;
    KeysTakenOver(e, t, n, h);
    LoadsTakenOver(e, t, n, h, v.a.value);
    ShowsTakenOver(e, t.routes, after.routes, v);
  }

  lemma StartShows(e: Setup)
    requires e.Valid()
    ensures At(e, e.Start(), 0, View(None, false, false, 0, 0))
  {
    assert AssignedTo(e.Start().routes, e.p) == {} == AssignedTo(e.Start().routes, e.q);
  }

  /** The tables after the first two registrations, and after two more. */
  lemma FirstTwo(e: Setup, h: Health) returns (t: Table)
    requires Ready(e, h)
    ensures t == Apply(Apply(e.Start(), DoRegister(e.Spec(e.a, ""), h)), DoRegister(e.Spec(e.a, e.thread), h))
    ensures At(e, t, 2, View(None, true, false, 1, 0))
  {
    StartShows(e);
    t := StepPlaceholder(e, e.Start(), 0, h, View(None, false, false, 0, 0), View(Some(e.p), false, false, 1, 0));
    t := StepThreaded(e, t, 1, h, View(Some(e.p), false, false, 1, 0), View(None, true, false, 1, 0));
  }

  lemma NextTwo(e: Setup, t: Table, h: Health) returns (after: Table)
    requires Ready(e, h) && At(e, t, 2, View(None, true, false, 1, 0))
    ensures after == Apply(Apply(t, DoRegister(e.Spec(e.a, ""), h)), DoRegister(e.Spec(e.b, ""), h))
    ensures At(e, after, 4, View(Some(e.q), true, true, 2, 1))
  {
    after := StepPlaceholder(e, t, 2, h, View(None, true, false, 1, 0), View(Some(e.q), true, false, 1, 1));
    after := StepOther(e, after, 3, h, View(Some(e.q), true, false, 1, 1), View(Some(e.q), true, true, 2, 1));
  }

  /** The last registration discards the placeholder on the less loaded provider. */
  lemma LastOne(e: Setup, t: Table, h: Health)
    requires Ready(e, h) && At(e, t, 4, View(Some(e.q), true, true, 2, 1))
    ensures var after := Apply(t, DoRegister(e.Spec(e.a, e.thread), h)).routes;
            LoadOf(after, e.p) == 2 && LoadOf(after, e.q) == 0
  {
    var after := StepThreaded(e, t, 4, h, View(Some(e.q), true, true, 2, 1), View(None, true, true, 2, 0));
  }

  lemma OneMore(t: Table, ops: seq<Op>, op: Op)
    ensures ApplyAll(t, ops + [op]) == Apply(ApplyAll(t, ops), op)
  {
    assert (ops + [op])[..|ops|] == ops;
  }

  lemma FiveSteps(t: Table, a: Op, b: Op, c: Op, d: Op, e: Op)
    ensures ApplyAll(t, [a, b, c, d, e]) == Apply(Apply(Apply(Apply(Apply(t, a), b), c), d), e)
  {
    OneMore(t, [], a);
    OneMore(t, [a], b);
    OneMore(t, [a, b], c);
    OneMore(t, [a, b, c], d);
    OneMore(t, [a, b, c, d], e);
    assert [a] == [] + [a] && [a, b] == [a] + [b] && [a, b, c] == [a, b] + [c];
    assert [a, b, c, d] == [a, b, c] + [d] && [a, b, c, d, e] == [a, b, c, d] + [e];
  }

  lemma AllAreRegular(e: Setup, h: Health)
    requires Ready(e, h)
    ensures AllRegular(e.Start(), Registrations(e, h), Main, e.Pool())
  {
  }

  /**
   * Five registrations from the empty table, with two healthy idle providers,
   * leave one of them with both routes and the other with none.
   */
  lemma DiscardUnbalances(e: Setup, h: Health)
    requires Ready(e, h)
    ensures AllRegular(e.Start(), Registrations(e, h), Main, e.Pool())
    ensures var after := ApplyAll(e.Start(), Registrations(e, h)).routes;
            LoadOf(after, e.p) == 2 && LoadOf(after, e.q) == 0 && !Spread(after, e.Pool())
  {
    AllAreRegular(e, h);
    var t := FirstTwo(e, h);
    t := NextTwo(e, t, h);
    LastOne(e, t, h);
    var placeholder, threaded, other :=
      DoRegister(e.Spec(e.a, ""), h), DoRegister(e.Spec(e.a, e.thread), h), DoRegister(e.Spec(e.b, ""), h);
    FiveSteps(e.Start(), placeholder, threaded, placeholder, other, threaded);
    NotSpread(Apply(t, threaded).routes, e);
  }

  lemma NotSpread(routes: Routes, e: Setup)
    requires LoadOf(routes, e.p) == 2 && LoadOf(routes, e.q) == 0
    ensures !Spread(routes, e.Pool())
  {
    assert e.Pool()[0] == e.p && e.Pool()[1] == e.q;
    assert e.p in e.Pool() && e.q in e.Pool();
  }
}
