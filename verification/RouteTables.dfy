/**
 * The routing table as a state machine: registration, release, reload,
 * reservation and rotation, and what every run of them keeps
 * (src/proxy/runtime.rs).
 */
module RouteTables {
  import opened Prelude
  import opened Config
  import opened Routing
  import opened RouteOrder

  const MAX_ROUTES: nat := 2048
  const MAX_OUTPUT: nat := 200_000
  const MAX_WAIT: real := 900.0

  /** The live configuration and routes; `preferred` serves requests without a route. */
  datatype Table = Table(config: seq<Backend>, defaultWait: real, routes: Routes, released: set<string>,
                         preferred: string)

  datatype RouteError = InvalidRoute | RunReleased | RouteConflict

  // ---------------------------------------------------------------------
  // Operations
  // ---------------------------------------------------------------------

  /** A route registered for the same role before its thread was known. */
  function Placeholder(routes: Routes, spec: RouteSpec): Option<TaskRoute> {
    if spec.id in routes && routes[spec.id].spec.thread == "" && routes[spec.id].spec.role == spec.role
    then Some(routes[spec.id]) else None
  }

  predicate Accepts(t: Table, spec: RouteSpec) {
    && ValidId(spec.id) && ValidContext(spec) && Distinct(spec.providers)
    && !spec.strategy.UnknownStrategy? && spec.maxOutput <= MAX_OUTPUT
    && Compatible(spec, t.config)
    && (spec.wait.Some? ==> 0.0 <= spec.wait.value <= MAX_WAIT)
    && (|t.routes| < MAX_ROUTES || spec.Key() in t.routes || Placeholder(t.routes, spec).Some?)
  }

  /** The route a registration continues. */
  function Earlier(routes: Routes, spec: RouteSpec): Option<TaskRoute> {
    if spec.Key() in routes then Some(routes[spec.Key()]) else Placeholder(routes, spec)
  }

  predicate BelongsElsewhere(routes: Routes, spec: RouteSpec) {
    || (exists k :: k in routes && routes[k].spec.id == spec.id && !routes[k].spec.SameOwner(spec))
    || (var prior := Earlier(routes, spec);
        prior.Some? && (!prior.value.spec.SameOwner(spec) || prior.value.spec.role != spec.role))
  }

  /** A route with the provider chosen for it, which becomes its preference. */
  function WithChoice(route: TaskRoute, choice: Option<Backend>): TaskRoute {
    if choice.Some? then route.(assignment := Some(choice.value.id), preferred := choice.value.id)
    else route.(assignment := None)
  }

  /** The route of a registration before its provider is chosen. */
  function Candidate(t: Table, spec: RouteSpec): TaskRoute
    requires spec.providers != []
  {
    var prior := Earlier(t.routes, spec);
    TaskRoute(spec.(wait := Some(if spec.wait.Some? then spec.wait.value else t.defaultWait)),
              if prior.Some? then prior.value.preferred else spec.providers[0],
              if prior.Some? then prior.value.lastProvider else None,
              if prior.Some? then prior.value.attempts else map[],
              if prior.Some? then prior.value.assignment else None)
  }

  function NewRoute(t: Table, spec: RouteSpec, h: Health): TaskRoute
    requires spec.providers != []
  {
    var route := Candidate(t, spec);
    if spec.role.NoRole? then route else WithChoice(route, Choose(t.routes, route, t.config, 0, h))
  }

  /** The routes without the placeholder that a threaded registration replaces. */
  function Migrated(routes: Routes, spec: RouteSpec): Routes {
    if spec.Key() != spec.id && Placeholder(routes, spec).Some? then routes - {spec.id} else routes
  }

  lemma AcceptedIsNonempty(t: Table, spec: RouteSpec)
    requires Accepts(t, spec)
    ensures spec.providers != []
  {
  }

  /** The first check a registration fails. */
  function Objection(t: Table, spec: RouteSpec): Option<RouteError> {
    if !Accepts(t, spec) then Some(InvalidRoute)
    else if spec.run != "" && spec.run in t.released then Some(RunReleased)
    else if BelongsElsewhere(t.routes, spec) then Some(RouteConflict)
    else None
  }

  function Register(t: Table, spec: RouteSpec, h: Health): Result<Table, RouteError> {
    var objection := Objection(t, spec);
    if objection.Some? then Err(objection.value)
    else
      AcceptedIsNonempty(t, spec);
      Ok(t.(routes := Migrated(t.routes, spec)[spec.Key() := NewRoute(t, spec, h)]))
  }

  function Kept(routes: Routes, run: string): Routes {
    map k | k in routes && routes[k].spec.run != run :: routes[k]
  }

  function Release(t: Table, run: string): Table {
    if !ValidId(run) then t else t.(routes := Kept(t.routes, run), released := t.released + {run})
  }

  /** The providers requests without a route start at must still be configured. */
  function PreferenceAfter(preferred: string, config: seq<Backend>): string {
    if config == [] || exists b :: b in config && b.id == preferred then preferred else config[0].id
  }

  /** A route cannot silently escape its original set after a reload. */
  function Reload(t: Table, config: seq<Backend>, defaultWait: real): Table {
    t.(config := config, defaultWait := defaultWait, preferred := PreferenceAfter(t.preferred, config),
       routes := map k | k in t.routes && Compatible(t.routes[k].spec, config) :: t.routes[k])
  }

  /** An attempt that begins is noted on its route. */
  function NoteAttempt(t: Table, key: string, provider: string): Table {
    if key !in t.routes then t
    else
      var route := t.routes[key];
      var count := if provider in route.attempts then route.attempts[provider] else 0;
      t.(routes := t.routes[key := route.(lastProvider := Some(provider),
                                          attempts := route.attempts[provider := count + 1])])
  }

  /** Selection and reservation of a provider for one request. */
  function Reserve(t: Table, key: string, candidates: seq<Backend>, estimate: nat, h: Health): Table {
    if key in t.routes then
      var choice := Choose(t.routes, t.routes[key], candidates, estimate, h);
      if choice.Some? then t.(routes := t.routes[key := WithChoice(t.routes[key], choice)]) else t
    else t
  }

  function Without(candidates: seq<Backend>, id: string): (rest: seq<Backend>)
    ensures forall b :: b in rest <==> b in candidates && b.id != id
  {
    if candidates == [] then []
    else
      var last := candidates[|candidates| - 1];
      Without(candidates[..|candidates| - 1], id) + if last.id != id then [last] else []
  }

  /**
   * Moving away from a failed provider. `config` is the configuration of the
   * request, which may be older than the live one. Without a role only a
   * preference for the failed provider moves, to the next ready one in order.
   */
  function Rotate(t: Table, key: Option<string>, failed: string, config: seq<Backend>, rotateOnFailure: bool,
                  h: Health): Table {
    if key.None? && !rotateOnFailure then t
    else if key.Some? && key.value in t.routes && !t.routes[key.value].spec.role.NoRole? then
      var route := t.routes[key.value];
      var choice := Choose(t.routes, route.(assignment := None), Without(config, failed), 0, h);
      t.(routes := t.routes[key.value := WithChoice(route, choice)])
    else
      var next := NextReady(Order(t.routes, t.preferred, rotateOnFailure, config, key, h), failed, h);
      if next.None? then t
      else if key.Some? && key.value in t.routes then
        var route := t.routes[key.value];
        if route.preferred == failed then t.(routes := t.routes[key.value := route.(preferred := next.value)]) else t
      else if t.preferred == failed then t.(preferred := next.value)
      else t
  }

  datatype Op =
    | DoRegister(spec: RouteSpec, h: Health)
    | DoRelease(run: string)
    | DoReload(config: seq<Backend>, defaultWait: real)
    | DoReserve(key: string, candidates: seq<Backend>, estimate: nat, h: Health)
    | DoRotate(target: Option<string>, failed: string, config: seq<Backend>, rotateOnFailure: bool, h: Health)
    | DoAttempt(key: string, provider: string)

  function Apply(t: Table, op: Op): Table {
    match op
    case DoRegister(spec, h) => (match Register(t, spec, h) case Ok(after) => after case Err(_) => t)
    case DoRelease(run) => Release(t, run)
    case DoReload(config, wait) => Reload(t, config, wait)
    case DoReserve(key, candidates, estimate, h) => Reserve(t, key, candidates, estimate, h)
    case DoRotate(target, failed, config, rotating, h) => Rotate(t, target, failed, config, rotating, h)
    case DoAttempt(key, provider) => NoteAttempt(t, key, provider)
  }

  function ApplyAll(t: Table, ops: seq<Op>): Table {
    if ops == [] then t else Apply(ApplyAll(t, ops[..|ops| - 1]), ops[|ops| - 1])
  }

  // ---------------------------------------------------------------------
  // The invariant
  // ---------------------------------------------------------------------

  /** A route sits at its own key, is served by the live configuration and keeps to its own list. */
  ghost predicate GoodRoute(k: string, route: TaskRoute, config: seq<Backend>, released: set<string>) {
    && k == route.spec.Key() && ValidId(route.spec.id) && ValidContext(route.spec) && Distinct(route.spec.providers)
    && Served(route.spec, config)
    && route.spec.run !in released
    && (!route.spec.role.NoRole? && route.assignment.Some? ==> route.assignment.value in route.spec.providers)
  }

  ghost predicate AllGood(t: Table) {
    forall k :: k in t.routes ==> GoodRoute(k, t.routes[k], t.config, t.released)
  }

  /** All routes with one id share run, task and project. */
  ghost predicate OneOwner(routes: Routes) {
    forall j, k :: j in routes && k in routes && routes[j].spec.id == routes[k].spec.id ==>
      routes[j].spec.SameOwner(routes[k].spec)
  }

  ghost predicate Sound(t: Table) {
    AllGood(t) && OneOwner(t.routes) && |t.routes| <= MAX_ROUTES && "" !in t.released
  }

  lemma ChoiceIsOwn(routes: Routes, route: TaskRoute, candidates: seq<Backend>, estimate: nat, h: Health)
    ensures var choice := Choose(routes, route, candidates, estimate, h);
            choice.Some? ==> choice.value in candidates && choice.value.id in route.spec.providers
  {
    var i := ChoiceIsLeast(routes, route, candidates, estimate, h);
  }

  // ---------------------------------------------------------------------
  // Every operation keeps it
  // ---------------------------------------------------------------------

  /** Replacing the route at a key by one of the same specification. */
  lemma ReplaceKeepsSound(t: Table, k: string, route: TaskRoute)
    requires Sound(t) && k in t.routes && route.spec == t.routes[k].spec
    requires !route.spec.role.NoRole? && route.assignment.Some? ==> route.assignment.value in route.spec.providers
    ensures Sound(t.(routes := t.routes[k := route]))
  {
    SizeAfterPut(t.routes, k, route);
    SameOwnerAfter(t.routes, k, route);
  }

  lemma SameOwnerAfter(routes: Routes, k: string, route: TaskRoute)
    requires OneOwner(routes) && k in routes && route.spec == routes[k].spec
    ensures OneOwner(routes[k := route])
  {
  }

  lemma ReserveKeepsSound(t: Table, key: string, candidates: seq<Backend>, estimate: nat, h: Health)
    requires Sound(t)
    ensures Sound(Reserve(t, key, candidates, estimate, h))
  {
    if key in t.routes {
      var choice := Choose(t.routes, t.routes[key], candidates, estimate, h);
      ChoiceIsOwn(t.routes, t.routes[key], candidates, estimate, h);
      if choice.Some? {
        ReplaceKeepsSound(t, key, WithChoice(t.routes[key], choice));
      }
    }
  }

  lemma PreferenceKeepsSound(t: Table, preferred: string)
    requires Sound(t)
    ensures Sound(t.(preferred := preferred))
  {
  }

  lemma RotateKeepsSound(t: Table, key: Option<string>, failed: string, config: seq<Backend>, rotateOnFailure: bool,
                         h: Health)
    requires Sound(t)
    ensures Sound(Rotate(t, key, failed, config, rotateOnFailure, h))
  {
    var next := NextReady(Order(t.routes, t.preferred, rotateOnFailure, config, key, h), failed, h);
    if key.Some? && key.value in t.routes {
      var route := t.routes[key.value];
      if !route.spec.role.NoRole? {
        var choice := Choose(t.routes, route.(assignment := None), Without(config, failed), 0, h);
        ChoiceIsOwn(t.routes, route.(assignment := None), Without(config, failed), 0, h);
        ReplaceKeepsSound(t, key.value, WithChoice(route, choice));
      } else if next.Some? {
        ReplaceKeepsSound(t, key.value, route.(preferred := next.value));
      }
    } else if next.Some? {
      PreferenceKeepsSound(t, next.value);
    }
  }

  lemma NoteKeepsSound(t: Table, key: string, provider: string)
    requires Sound(t)
    ensures Sound(NoteAttempt(t, key, provider))
  {
    if key in t.routes {
      ReplaceKeepsSound(t, key, NoteAttempt(t, key, provider).routes[key]);
    }
  }

  lemma FewerKeys<K, V>(small: map<K, V>, large: map<K, V>)
    requires small.Keys <= large.Keys
    ensures |small| <= |large|
  {
    var rest := large.Keys - small.Keys;
    assert large.Keys == small.Keys + rest;
    assert |large.Keys| == |small.Keys| + |rest|;
  }

  lemma ReleaseKeepsSound(t: Table, run: string)
    requires Sound(t)
    ensures Sound(Release(t, run))
  {
    FewerKeys(Release(t, run).routes, t.routes);
  }

  lemma ReloadKeepsSound(t: Table, config: seq<Backend>, defaultWait: real)
    requires Sound(t)
    ensures Sound(Reload(t, config, defaultWait))
  {
    var after := Reload(t, config, defaultWait);
    forall k | k in after.routes ensures GoodRoute(k, after.routes[k], config, after.released) {
      CompatibleIsServed(t.routes[k].spec, config);
    }
    FewerKeys(after.routes, t.routes);
  }

  lemma SizeAfterPut<K, V>(m: map<K, V>, k: K, v: V)
    ensures |m[k := v]| == if k in m then |m| else |m| + 1
  {
    assert m[k := v].Keys == m.Keys + {k};
  }

  lemma SizeAfterRemove<K, V>(m: map<K, V>, k: K)
    requires k in m
    ensures |m - {k}| == |m| - 1
  {
    assert m.Keys == (m - {k}).Keys + {k};
  }

  lemma MigrationKeepsSize(t: Table, spec: RouteSpec, route: TaskRoute)
    requires Accepts(t, spec) && |t.routes| <= MAX_ROUTES
    ensures |Migrated(t.routes, spec)[spec.Key() := route]| <= MAX_ROUTES
  {
    SizeAfterPut(Migrated(t.routes, spec), spec.Key(), route);
    if Placeholder(t.routes, spec).Some? {
      SizeAfterRemove(t.routes, spec.id);
    }
  }

  lemma NewRouteIsGood(t: Table, spec: RouteSpec, h: Health)
    requires Sound(t) && Register(t, spec, h).Ok?
    ensures spec.providers != [] && GoodRoute(spec.Key(), NewRoute(t, spec, h), t.config, t.released)
    ensures NewRoute(t, spec, h).spec.id == spec.id && NewRoute(t, spec, h).spec.SameOwner(spec)
  {
    CompatibleIsServed(spec, t.config);
    ChoiceIsOwn(t.routes, Candidate(t, spec), t.config, 0, h);
  }

  /** The new route has the owner that every route with its id has. */
  lemma NewOwner(routes: Routes, spec: RouteSpec, route: TaskRoute)
    requires OneOwner(routes) && !BelongsElsewhere(routes, spec)
    requires route.spec.id == spec.id && route.spec.SameOwner(spec)
    ensures OneOwner(Migrated(routes, spec)[spec.Key() := route])
  {
    var after := Migrated(routes, spec)[spec.Key() := route];
    forall k | k in after && after[k].spec.id == spec.id ensures after[k].spec.SameOwner(spec) {
      assert k != spec.Key() ==> k in routes && after[k] == routes[k];
    }
    forall j, k | j in after && k in after && after[j].spec.id == after[k].spec.id
      ensures after[j].spec.SameOwner(after[k].spec)
    {
      assert j != spec.Key() && k != spec.Key() ==> after[j] == routes[j] && after[k] == routes[k];
    }
  }

  lemma PutKeepsSound(t: Table, spec: RouteSpec, route: TaskRoute)
    requires Sound(t) && Accepts(t, spec) && !BelongsElsewhere(t.routes, spec)
    requires GoodRoute(spec.Key(), route, t.config, t.released)
    requires route.spec.id == spec.id && route.spec.SameOwner(spec)
    ensures Sound(t.(routes := Migrated(t.routes, spec)[spec.Key() := route]))
  {
    NewOwner(t.routes, spec, route);
    MigrationKeepsSize(t, spec, route);
    NewKeepsGood(t, spec, route);
  }

  lemma RegisterKeepsSound(t: Table, spec: RouteSpec, h: Health)
    requires Sound(t) && Register(t, spec, h).Ok?
    ensures Sound(Register(t, spec, h).value)
  {
    NewRouteIsGood(t, spec, h);
    PutKeepsSound(t, spec, NewRoute(t, spec, h));
  }

  lemma NewKeepsGood(t: Table, spec: RouteSpec, route: TaskRoute)
    requires AllGood(t) && GoodRoute(spec.Key(), route, t.config, t.released)
    ensures AllGood(t.(routes := Migrated(t.routes, spec)[spec.Key() := route]))
  {
    var after := Migrated(t.routes, spec)[spec.Key() := route];
    forall k | k in after ensures GoodRoute(k, after[k], t.config, t.released) {
      assert k != spec.Key() ==> k in t.routes && after[k] == t.routes[k];
    }
  }

  /** No operation forgets a released run. */
  lemma ApplyKeepsReleased(t: Table, op: Op)
    ensures t.released <= Apply(t, op).released
  {
  }

  lemma RegisterOpKeepsSound(t: Table, spec: RouteSpec, h: Health)
    requires Sound(t)
    ensures Sound(Apply(t, DoRegister(spec, h)))
  {
    if Register(t, spec, h).Ok? {
      RegisterKeepsSound(t, spec, h);
    }
  }

  lemma ApplyKeepsSound(t: Table, op: Op)
    requires Sound(t)
    ensures Sound(Apply(t, op))
  {
    match op
    case DoRegister(spec, h) => RegisterOpKeepsSound(t, spec, h);
    case DoRelease(run) => ReleaseKeepsSound(t, run);
    case DoReload(config, wait) => ReloadKeepsSound(t, config, wait);
    case DoReserve(key, candidates, estimate, h) => ReserveKeepsSound(t, key, candidates, estimate, h);
    case DoRotate(target, failed, config, rotating, h) => RotateKeepsSound(t, target, failed, config, rotating, h);
    case DoAttempt(key, provider) => NoteKeepsSound(t, key, provider);
  }

  /** The table stays sound in every run, from the empty table on. */
  lemma {:induction false} RunKeepsSound(t: Table, ops: seq<Op>)
    requires Sound(t)
    ensures Sound(ApplyAll(t, ops)) && t.released <= ApplyAll(t, ops).released
  {
    if ops == [] {
    } else {
      RunKeepsSound(t, ops[..|ops| - 1]);
      ApplyKeepsSound(ApplyAll(t, ops[..|ops| - 1]), ops[|ops| - 1]);
      ApplyKeepsReleased(ApplyAll(t, ops[..|ops| - 1]), ops[|ops| - 1]);
    }
  }

  lemma ReachableIsSound(config: seq<Backend>, defaultWait: real, preferred: string, ops: seq<Op>)
    ensures Sound(ApplyAll(Table(config, defaultWait, map[], {}, preferred), ops))
  {
    RunKeepsSound(Table(config, defaultWait, map[], {}, preferred), ops);
  }

  /** A released run never has a route again, whatever happens later. */
  lemma ReleaseIsForever(t: Table, run: string, ops: seq<Op>)
    requires Sound(t) && ValidId(run)
    ensures forall k :: k in ApplyAll(Release(t, run), ops).routes ==>
              ApplyAll(Release(t, run), ops).routes[k].spec.run != run
  {
    ReleaseKeepsSound(t, run);
    RunKeepsSound(Release(t, run), ops);
  }

  /** A route at the key of a registration has its id. */
  lemma KeyHasId(t: Table, spec: RouteSpec)
    requires Sound(t) && ValidId(spec.id) && spec.Key() in t.routes
    ensures t.routes[spec.Key()].spec.id == spec.id
  {
    var found := t.routes[spec.Key()].spec;
    assert GoodRoute(spec.Key(), t.routes[spec.Key()], t.config, t.released);
    RouteKeyIsInjective(found.id, if found.role.NoRole? then "" else found.thread,
                        spec.id, if spec.role.NoRole? then "" else spec.thread);
  }

  /** A route of the same role and without a thread is at the id of a registration. */
  ghost predicate HasPlaceholder(routes: Routes, spec: RouteSpec) {
    spec.id in routes && routes[spec.id].spec.thread == "" && routes[spec.id].spec.role == spec.role
  }

  /** No route of the same id has another owner, and a route it replaces has the same role. */
  ghost predicate FitsIn(routes: Routes, spec: RouteSpec) {
    && (forall k :: k in routes && routes[k].spec.id == spec.id ==>
          routes[k].spec.run == spec.run && routes[k].spec.task == spec.task && routes[k].spec.project == spec.project)
    && (spec.Key() in routes ==> routes[spec.Key()].spec.role == spec.role)
  }

  /** At most a hundred letters, digits, underscores and hyphens, and at least one. */
  ghost predicate IsIdentifier(s: string) {
    1 <= |s| <= 100
    && forall c :: c in s ==> 'a' <= c <= 'z' || 'A' <= c <= 'Z' || '0' <= c <= '9' || c == '_' || c == '-'
  }

  ghost predicate IsBlankOrIdentifier(s: string) {
    |s| == 0 || IsIdentifier(s)
  }

  /** A route with a role names its project, task and run. */
  ghost predicate HasContext(spec: RouteSpec) {
    && IsBlankOrIdentifier(spec.project) && IsBlankOrIdentifier(spec.task) && IsBlankOrIdentifier(spec.run)
    && IsBlankOrIdentifier(spec.thread)
    && match spec.role
       case NoRole => true
       case UnknownRole(_) => false
       case _ => |spec.project| > 0 && |spec.task| > 0 && |spec.run| > 0
  }

  lemma IdentifiersAreValid(s: string)
    ensures ValidId(s) <==> IsIdentifier(s)
    ensures BlankOrValid(s) <==> IsBlankOrIdentifier(s)
  {
    if ValidId(s) {
      forall c | c in s ensures IsIdChar(c) {}
    }
    if IsIdentifier(s) {
      forall i | 0 <= i < |s| ensures IsIdChar(s[i]) {
        assert s[i] in s;
      }
    }
  }

  lemma ContextIsValid(spec: RouteSpec)
    ensures ValidContext(spec) <==> HasContext(spec)
  {
    IdentifiersAreValid(spec.project);
    IdentifiersAreValid(spec.task);
    IdentifiersAreValid(spec.run);
    IdentifiersAreValid(spec.thread);
  }

  /** What makes a registration invalid on its own: everything but released runs and other routes. */
  ghost predicate WellFormed(t: Table, spec: RouteSpec) {
    && IsIdentifier(spec.id) && HasContext(spec) && Distinct(spec.providers) && Served(spec, t.config)
    && (spec.strategy == Priority || spec.strategy == Balanced) && spec.maxOutput <= MAX_OUTPUT
    && (spec.wait.Some? ==> 0.0 <= spec.wait.value <= MAX_WAIT)
    && (|t.routes| < MAX_ROUTES || spec.Key() in t.routes || HasPlaceholder(t.routes, spec))
  }

  /**
   * When a registration is accepted, and with which error it is not: a route
   * of another owner with the same id conflicts wherever it is, and so does
   * one of another role at the same key.
   */
  lemma RegistersExactly(t: Table, spec: RouteSpec, h: Health)
    requires Sound(t)
    ensures Register(t, spec, h).Ok? <==> WellFormed(t, spec) && spec.run !in t.released && FitsIn(t.routes, spec)
    ensures Register(t, spec, h) == Err(InvalidRoute) <==> !WellFormed(t, spec)
    ensures Register(t, spec, h) == Err(RunReleased) <==> WellFormed(t, spec) && spec.run in t.released
  {
    CompatibleIsServed(spec, t.config);
    IdentifiersAreValid(spec.id);
    ContextIsValid(spec);
    if ValidId(spec.id) && spec.Key() in t.routes {
      KeyHasId(t, spec);
    }
    if ValidId(spec.id) && Placeholder(t.routes, spec).Some? {
      IdHasId(t, spec.id);
    }
  }

  /** The route at an id has that id. */
  lemma IdHasId(t: Table, id: string)
    requires Sound(t) && ValidId(id) && id in t.routes
    ensures t.routes[id].spec.id == id
  {
    var found := t.routes[id].spec;
    assert GoodRoute(id, t.routes[id], t.config, t.released);
    RouteKeyIsInjective(found.id, if found.role.NoRole? then "" else found.thread, id, "");
  }

  // ---------------------------------------------------------------------
  // What operations leave alone
  // ---------------------------------------------------------------------

  /** A registration touches its own key only, and takes away the placeholder it replaces. */
  lemma RegisterIsLocal(t: Table, spec: RouteSpec, h: Health)
    requires Register(t, spec, h).Ok?
    ensures var after := Register(t, spec, h).value;
            && after == t.(routes := after.routes)
            && forall k :: k != spec.Key() ==>
                 && (k in after.routes <==> k in t.routes && !(k == spec.id && HasPlaceholder(t.routes, spec)))
                 && (k in after.routes ==> after.routes[k] == t.routes[k])
  {
  }

  /** Whether a choice keeps provider `id`: it can be used, and is below its soft limit unless no usable one is. */
  ghost predicate Keeps(route: TaskRoute, candidates: seq<Backend>, estimate: nat, h: Health, id: string) {
    exists b :: b in candidates && b.id == id && IsOpen(route, h, estimate, b)
      && (h.soft(b) ==> forall c :: c in candidates && IsOpen(route, h, estimate, c) ==> h.soft(c))
  }

  /** A choice stays with the assigned provider exactly when it can keep it, however loaded that provider is. */
  lemma ChoiceIsSticky(routes: Routes, route: TaskRoute, candidates: seq<Backend>, estimate: nat, h: Health, id: string)
    requires route.assignment == Some(id)
    ensures var choice := Choose(routes, route, candidates, estimate, h);
            choice.Some? && choice.value.id == id <==> Keeps(route, candidates, estimate, h, id)
  {
    ChoiceIsBest(routes, route, candidates, estimate, h);
    var choice := Choose(routes, route, candidates, estimate, h);
    if choice.Some? && choice.value.id == id && h.soft(choice.value) {
      forall c | c in candidates && IsOpen(route, h, estimate, c) ensures h.soft(c) {
        assert !Prefers(routes, route, h, c, choice.value);
      }
    }
    if Keeps(route, candidates, estimate, h, id) {
      var b :| b in candidates && b.id == id && IsOpen(route, h, estimate, b)
        && (h.soft(b) ==> forall c :: c in candidates && IsOpen(route, h, estimate, c) ==> h.soft(c));
      assert !Prefers(routes, route, h, b, choice.value);
    }
  }

  /** The registration of a route with a thread or again, as seen by its choice. */
  function Continued(t: Table, spec: RouteSpec): TaskRoute
    requires Earlier(t.routes, spec).Some?
  {
    Earlier(t.routes, spec).value.(spec := spec)
  }

  /**
   * Registering a route again, or adding its thread, keeps its provider
   * exactly when that provider can be kept.
   */
  lemma RegistrationIsSticky(t: Table, spec: RouteSpec, h: Health, id: string)
    requires Register(t, spec, h).Ok? && !spec.role.NoRole?
    requires Earlier(t.routes, spec).Some? && Earlier(t.routes, spec).value.assignment == Some(id)
    ensures Register(t, spec, h).value.routes[spec.Key()].assignment == Some(id)
            <==> Keeps(Continued(t, spec), t.config, 0, h, id)
  {
    AcceptedIsNonempty(t, spec);
    var route := Candidate(t, spec);
    ChoiceIsSticky(t.routes, route, t.config, 0, h, id);
    assert forall b :: IsOpen(route, h, 0, b) <==> IsOpen(Continued(t, spec), h, 0, b);
  }

  // ---------------------------------------------------------------------
  // What operations achieve
  // ---------------------------------------------------------------------

  /** The assignment of a role route is the best provider open to it, or none if no provider is. */
  ghost predicate WellAssigned(routes: Routes, route: TaskRoute, candidates: seq<Backend>, h: Health,
                               assignment: Option<string>) {
    match assignment
    case None => forall b :: b in candidates ==> !IsOpen(route, h, 0, b)
    case Some(id) => exists b :: IsBest(routes, route, candidates, 0, h, b) && b.id == id
  }

  lemma ChoiceIsWellAssigned(routes: Routes, route: TaskRoute, candidates: seq<Backend>, h: Health)
    ensures WellAssigned(routes, route, candidates, h,
              WithChoice(route, Choose(routes, route, candidates, 0, h)).assignment)
  {
    ChoiceIsBest(routes, route, candidates, 0, h);
  }

  /** The route a registration continues: the one at its key, or else the placeholder. */
  ghost predicate IsEarlier(routes: Routes, spec: RouteSpec, earlier: Option<TaskRoute>) {
    if spec.Key() in routes then earlier == Some(routes[spec.Key()])
    else if HasPlaceholder(routes, spec) then earlier == Some(routes[spec.id])
    else earlier == None
  }

  /** A route keeps the history of the earlier one, and without a role its preference as well. */
  ghost predicate Continues(earlier: Option<TaskRoute>, route: TaskRoute, spec: RouteSpec) {
    match earlier
    case None =>
      route.lastProvider == None && route.attempts == map[]
      && (spec.role.NoRole? ==>
            spec.providers != [] && route.preferred == spec.providers[0] && route.assignment == None)
    case Some(prior) =>
      route.lastProvider == prior.lastProvider && route.attempts == prior.attempts
      && (spec.role.NoRole? ==> route.preferred == prior.preferred && route.assignment == prior.assignment)
  }

  /** The route as it is when its provider is chosen: still assigned as the earlier one was. */
  ghost function AssignedAs(route: TaskRoute, earlier: Option<TaskRoute>): TaskRoute {
    route.(assignment := if earlier.Some? then earlier.value.assignment else None)
  }

  /** The history of a route does not matter to its choice. */
  lemma SameBest(routes: Routes, a: TaskRoute, b: TaskRoute, candidates: seq<Backend>, h: Health, x: Backend)
    requires a.spec == b.spec && a.assignment == b.assignment
    ensures IsOpen(a, h, 0, x) <==> IsOpen(b, h, 0, x)
    ensures IsBest(routes, a, candidates, 0, h, x) ==> IsBest(routes, b, candidates, 0, h, x)
  {
    if IsBest(routes, a, candidates, 0, h, x) {
      forall c | c in candidates && IsOpen(b, h, 0, c) ensures !Prefers(routes, b, h, c, x) {
        assert IsOpen(a, h, 0, c) && !Prefers(routes, a, h, c, x);
        SamePreference(routes, a, b, h, c, x);
      }
    }
  }

  lemma SamePreference(routes: Routes, a: TaskRoute, b: TaskRoute, h: Health, x: Backend, y: Backend)
    requires a.spec == b.spec && a.assignment == b.assignment
    ensures Prefers(routes, a, h, x, y) <==> Prefers(routes, b, h, x, y)
  {
  }

  lemma SameAssignment(routes: Routes, a: TaskRoute, b: TaskRoute, candidates: seq<Backend>, h: Health,
                       assignment: Option<string>)
    requires a.spec == b.spec && a.assignment == b.assignment && WellAssigned(routes, a, candidates, h, assignment)
    ensures WellAssigned(routes, b, candidates, h, assignment)
  {
    forall x ensures IsOpen(a, h, 0, x) <==> IsOpen(b, h, 0, x) {
      SameBest(routes, a, b, candidates, h, x);
    }
    if assignment.Some? {
      var x :| IsBest(routes, a, candidates, 0, h, x) && x.id == assignment.value;
      SameBest(routes, a, b, candidates, h, x);
    }
  }

  lemma RegisteredIsWellAssigned(t: Table, spec: RouteSpec, h: Health, route: TaskRoute, earlier: Option<TaskRoute>)
    requires spec.providers != [] && !spec.role.NoRole? && route == NewRoute(t, spec, h)
    requires earlier == Earlier(t.routes, spec)
    ensures WellAssigned(t.routes, AssignedAs(route, earlier), t.config, h, route.assignment)
  {
    var candidate := Candidate(t, spec);
    ChoiceIsWellAssigned(t.routes, candidate, t.config, h);
    SameAssignment(t.routes, candidate, AssignedAs(route, earlier), t.config, h, route.assignment);
  }

  /**
   * An accepted registration is found under its key with its wait filled in,
   * assigned to the best provider of the live configuration, which it then
   * prefers, and continues the history of the earlier route.
   */
  lemma RegisterInstalls(t: Table, spec: RouteSpec, h: Health) returns (earlier: Option<TaskRoute>)
    requires Register(t, spec, h).Ok?
    ensures spec.providers != [] && spec.Key() in Register(t, spec, h).value.routes
    ensures IsEarlier(t.routes, spec, earlier)
    ensures var route := Register(t, spec, h).value.routes[spec.Key()];
            && route.spec == spec.(wait := Some(if spec.wait.Some? then spec.wait.value else t.defaultWait))
            && (!spec.role.NoRole? ==>
                  && WellAssigned(t.routes, AssignedAs(route, earlier), t.config, h, route.assignment)
                  && (route.assignment.Some? ==> route.preferred == route.assignment.value)
                  && (route.assignment.None? ==>
                        route.preferred == if earlier.Some? then earlier.value.preferred else spec.providers[0]))
            && Continues(earlier, route, spec)
  {
    AcceptedIsNonempty(t, spec);
    earlier := Earlier(t.routes, spec);
    var route := Register(t, spec, h).value.routes[spec.Key()];
    if !spec.role.NoRole? {
      RegisteredIsWellAssigned(t, spec, h, route, earlier);
    }
  }

  /** A run with a valid id loses exactly its routes and is remembered; nothing else changes. */
  lemma ReleaseDropsRun(t: Table, run: string)
    ensures var after := Release(t, run);
            && (!ValidId(run) ==> after == t)
            && (ValidId(run) ==>
                  && after == t.(routes := after.routes, released := after.released)
                  && (forall r :: r in after.released <==> r in t.released || r == run)
                  && forall k :: (k in after.routes <==> k in t.routes && t.routes[k].spec.run != run)
                              && (k in after.routes ==> after.routes[k] == t.routes[k]))
  {
  }

  /** A reload adopts the configuration and keeps the shared preference if it is still there. */
  lemma ReloadAdopts(t: Table, config: seq<Backend>, defaultWait: real)
    requires config != []
    ensures var after := Reload(t, config, defaultWait);
            && after.config == config && after.defaultWait == defaultWait && after.released == t.released
            && ((exists b :: b in config && b.id == t.preferred) ==> after.preferred == t.preferred)
            && ((forall b :: b in config ==> b.id != t.preferred) ==> after.preferred == config[0].id)
  {
  }

  /** An attempt is counted on its live route, which remembers its provider. */
  lemma AttemptIsNoted(t: Table, key: string, provider: string)
    ensures var after := NoteAttempt(t, key, provider);
            && after == t.(routes := after.routes) && after.routes.Keys == t.routes.Keys
            && (forall k :: k in t.routes && k != key ==> after.routes[k] == t.routes[k])
            && (key in t.routes ==>
                  var route, noted := t.routes[key], after.routes[key];
                  && noted == route.(lastProvider := Some(provider), attempts := noted.attempts)
                  && (forall b: Backend :: b.id == provider ==> AttemptsOn(noted, b) == AttemptsOn(route, b) + 1)
                  && (forall b: Backend :: b.id != provider ==> AttemptsOn(noted, b) == AttemptsOn(route, b)))
  {
  }

  /** A reload keeps exactly the routes that the new configuration serves. */
  lemma ReloadKeepsServed(t: Table, config: seq<Backend>, defaultWait: real, k: string)
    requires k in t.routes
    ensures k in Reload(t, config, defaultWait).routes <==> Served(t.routes[k].spec, config)
    ensures k in Reload(t, config, defaultWait).routes ==> Reload(t, config, defaultWait).routes[k] == t.routes[k]
  {
    CompatibleIsServed(t.routes[k].spec, config);
  }

  /** The best of the offered providers becomes assignment and preference; no other route changes. */
  lemma ReserveAssigns(t: Table, key: string, candidates: seq<Backend>, estimate: nat, h: Health)
    ensures var after := Reserve(t, key, candidates, estimate, h);
            && after == t.(routes := after.routes) && after.routes.Keys == t.routes.Keys
            && (forall k :: k in t.routes && k != key ==> after.routes[k] == t.routes[k])
            && (key in t.routes ==>
                  if exists b :: b in candidates && IsOpen(t.routes[key], h, estimate, b)
                  then exists b :: IsBest(t.routes, t.routes[key], candidates, estimate, h, b)
                         && after.routes[key] == t.routes[key].(assignment := Some(b.id), preferred := b.id)
                  else after.routes[key] == t.routes[key])
  {
    if key in t.routes {
      ChoiceIsBest(t.routes, t.routes[key], candidates, estimate, h);
    }
  }

  /**
   * After a rotation a role route has the best of the other providers, or
   * none if no other is open to it, and is never assigned to the failed one;
   * its history and every other route stay.
   */
  lemma RotationLeavesFailed(t: Table, key: string, failed: string, config: seq<Backend>, rotateOnFailure: bool,
                             h: Health) returns (others: seq<Backend>)
    requires key in t.routes && !t.routes[key].spec.role.NoRole?
    ensures forall b :: b in others <==> b in config && b.id != failed
    ensures var after := Rotate(t, Some(key), failed, config, rotateOnFailure, h);
            var route, moved := t.routes[key], after.routes[key];
            && after == t.(routes := t.routes[key := moved])
            && WellAssigned(t.routes, route.(assignment := None), others, h, moved.assignment)
            && moved == route.(assignment := moved.assignment, preferred := moved.preferred)
            && moved.preferred == (if moved.assignment.Some? then moved.assignment.value else route.preferred)
            && moved.assignment != Some(failed)
            && (moved.assignment.Some? <==> exists b :: b in config && b.id != failed && IsOpen(route, h, 0, b))
  {
    others := Without(config, failed);
    var route := t.routes[key].(assignment := None);
    ChoiceIsBest(t.routes, route, others, 0, h);
    assert forall b :: IsOpen(route, h, 0, b) <==> IsOpen(t.routes[key], h, 0, b);
    assert t.routes[key := t.routes[key]] == t.routes;
  }

  /** The preference of a route without a role after a rotation. */
  function PreferenceOf(t: Table, key: string): string
    requires key in t.routes
  {
    t.routes[key].preferred
  }

  ghost predicate Names(backends: seq<Backend>, id: string) {
    exists b :: b in backends && b.id == id
  }

  /**
   * A route without a role leaves a failed preference exactly when another
   * provider of its order is ready, and then prefers a ready one; any other
   * preference stays.
   */
  lemma RotationMovesPreference(t: Table, key: string, failed: string, config: seq<Backend>, rotateOnFailure: bool,
                                h: Health)
    requires key in t.routes && t.routes[key].spec.role.NoRole? && UniqueIds(Listed(t.routes, config, Some(key)))
    ensures var after := Rotate(t, Some(key), failed, config, rotateOnFailure, h);
            && after.routes.Keys == t.routes.Keys
            && (forall k :: k in after.routes && k != key ==> after.routes[k] == t.routes[k])
            && (PreferenceOf(t, key) != failed ==> after == t)
            && (PreferenceOf(t, key) == failed && Names(Listed(t.routes, config, Some(key)), failed) ==>
                  if exists b :: b in Listed(t.routes, config, Some(key)) && b.id != failed && b.Usable()
                       && !h.cooling(b)
                  then exists b :: b in Listed(t.routes, config, Some(key)) && b.id == PreferenceOf(after, key)
                         && b.id != failed && b.Usable() && !h.cooling(b)
                  else after == t)
  {
    var order := Order(t.routes, t.preferred, rotateOnFailure, config, Some(key), h);
    OrderReorders(t.routes, t.preferred, rotateOnFailure, config, Some(key), h);
    if Names(Listed(t.routes, config, Some(key)), failed) {
      ReorderIsUnique(Listed(t.routes, config, Some(key)), order);
      FollowingIsRest(order, failed);
    }
  }

  /** The place of the failed provider in an order, and of the one that takes over. */
  ghost predicate IsNext(order: seq<Backend>, failed: string, h: Health, n: nat, k: nat) {
    FailedAt(order, failed, n) && TakesOver(order, n, k, h)
  }

  /**
   * Without a role only a preference for the failed provider moves: to the
   * first ready one after it, going round the order, and not at all if no
   * other one is ready. For a route that is gone, and for requests without a
   * route unless they rotate, nothing moves.
   */
  lemma RotationIsNext(t: Table, key: Option<string>, failed: string, config: seq<Backend>, rotateOnFailure: bool,
                       h: Health)
    requires key.Some? && key.value in t.routes ==> t.routes[key.value].spec.role.NoRole?
    ensures var after := Rotate(t, key, failed, config, rotateOnFailure, h);
            var order := Order(t.routes, t.preferred, rotateOnFailure, config, key, h);
            match key
            case None =>
              && (!rotateOnFailure || t.preferred != failed ==> after == t)
              && (rotateOnFailure && t.preferred == failed ==>
                    Moves(order, failed, h, failed, after.preferred) && after == t.(preferred := after.preferred))
            case Some(k) =>
              && (k !in t.routes ==> after == t)
              && (k in t.routes && t.routes[k].preferred != failed ==> after == t)
              && (k in t.routes && t.routes[k].preferred == failed ==>
                    && k in after.routes && Moves(order, failed, h, failed, after.routes[k].preferred)
                    && after == t.(routes := t.routes[k := t.routes[k].(preferred := after.routes[k].preferred)]))
  {
    var order := Order(t.routes, t.preferred, rotateOnFailure, config, key, h);
    NextMoves(order, failed, h);
    if key.Some? && key.value in t.routes {
      assert t.routes[key.value := t.routes[key.value]] == t.routes;
    }
  }

  /** A preference moves to the provider that takes over from the failed one, or stays if none does. */
  ghost predicate Moves(order: seq<Backend>, failed: string, h: Health, before: string, after: string) {
    && (forall n: nat, k: nat :: IsNext(order, failed, h, n, k) ==> after == CyclicAt(order, n, k).id)
    && ((forall n: nat, k: nat :: !IsNext(order, failed, h, n, k)) ==> after == before)
  }

  lemma NextMoves(order: seq<Backend>, failed: string, h: Health)
    ensures var next := NextReady(order, failed, h);
            Moves(order, failed, h, failed, if next.Some? then next.value else failed)
  {
    var n := IndexOf(order, failed);
    n := if n < |order| then n else 0;
    if order != [] {
      NextReadyIsNext(order, failed, h, n);
      assert FailedAt(order, failed, n);
      if NextReady(order, failed, h).Some? {
        var k: nat :| TakesOver(order, n, k, h);
        assert IsNext(order, failed, h, n, k);
      }
    }
    forall m: nat, k: nat | IsNext(order, failed, h, m, k)
      ensures NextReady(order, failed, h) == Some(CyclicAt(order, m, k).id)
    {
      NextReadyIsNext(order, failed, h, m);
    }
  }
}
