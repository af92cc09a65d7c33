/**
 * The attempt and wait loop of one request (src/proxy/runtime.rs, `forward`).
 * Everything other requests, route edits, reloads and upstreams do meanwhile
 * is read from a `World` that may answer differently at every look.
 */
module Forwarding {
  import opened Prelude
  import opened Config
  import opened Routing
  import opened Waits
  import RouteOrder
  import RouteTables

  const MAX_ATTEMPTS: nat := 64

  // ---------------------------------------------------------------------
  // The world of a request
  // ---------------------------------------------------------------------

  datatype Beginning = Started | OverBudget | RouteGone

  /** Whether an upstream answer goes to the client or the next provider is tried. */
  datatype Reply = Final | TryNext

  /**
   * What a request sees at each look: the routing table, budgets, cooldowns
   * and requests in flight, the hard limits in force and how long a provider
   * stays blocked; and what becomes of its own steps.
   */
  datatype World = World(
    table: nat -> RouteTables.Table,
    health: nat -> Health,
    hard: (nat, Backend) -> nat,
    blockedFor: (nat, Backend) -> real,
    sendable: (nat, Backend) -> bool,
    begin: (nat, Backend) -> Beginning,
    reply: (nat, Backend) -> Reply,
    elapsed: nat -> real)

  /** The table is one that registrations, releases, reloads and rotations can lead to. */
  ghost predicate Lawful(world: World) {
    forall i: nat :: RouteTables.Sound(world.table(i))
  }

  /** Every wake-up advances the clock. */
  ghost predicate Ticks(world: World, tick: real) {
    tick > 0.0 && forall i: nat :: world.elapsed(i) >= tick
  }

  /** A route as it was when the request arrived. */
  datatype Captured = Captured(key: string, route: TaskRoute)

  /** A request with the configuration it arrived under and its estimate. */
  datatype Request = Request(
    config: seq<Backend>, rotateOnFailure: bool, cooldownWait: real, captured: Option<Captured>, estimate: nat)
  {
    function Key(): Option<string> {
      if captured.Some? then Some(captured.value.key) else None
    }

    /** Routes with a role reserve their provider for every try. */
    predicate Reserves() {
      captured.Some? && !captured.value.route.spec.role.NoRole?
    }

    /** The wait of the route as it was captured, or else the configured one. */
    function WaitBudget(): (budget: real)
      ensures forall w :: captured.Some? && captured.value.route.spec.wait == Some(w) ==> budget == w
      ensures captured.None? || captured.value.route.spec.wait == None ==> budget == cooldownWait
    {
      if captured.Some? && captured.value.route.spec.wait.Some? then captured.value.route.spec.wait.value
      else cooldownWait
    }
  }

  /** The providers a request may use: configured, and in its route, when it arrived. */
  ghost predicate InCohort(req: Request, id: string) {
    && (exists b :: b in req.config && b.id == id)
    && (req.captured.Some? ==> id in req.captured.value.route.spec.providers)
  }

  ghost predicate AllInCohort(req: Request, ids: seq<string>) {
    forall id :: id in ids ==> InCohort(req, id)
  }

  /** `Exhausted` tells the client when to retry, in seconds. */
  datatype Answer = Answered | RouteUnavailable | TokenBudgetExceeded | Exhausted(retryAfter: nat) | Unavailable

  // ---------------------------------------------------------------------
  // The order of a pass
  // ---------------------------------------------------------------------

  function Ids(backends: seq<Backend>): (ids: seq<string>)
    ensures |ids| == |backends| && forall i :: 0 <= i < |ids| ==> ids[i] == backends[i].id
  {
    seq(|backends|, i requires 0 <= i < |backends| => backends[i].id)
  }

  function Select(backends: seq<Backend>, keep: Backend -> bool): (kept: seq<Backend>)
    ensures forall b :: b in kept <==> b in backends && keep(b)
  {
    if backends == [] then []
    else
      var last := backends[|backends| - 1];
      Select(backends[..|backends| - 1], keep) + if keep(last) then [last] else []
  }

  lemma {:induction false} SelectIsUnique(backends: seq<Backend>, keep: Backend -> bool)
    requires UniqueIds(backends)
    ensures UniqueIds(Select(backends, keep))
  {
    if backends == [] {
    } else {
      var init, last := backends[..|backends| - 1], backends[|backends| - 1];
      SelectIsUnique(init, keep);
      assert forall c :: c in init ==> c.id != last.id;
      if keep(last) {
        RouteOrder.UniqueSnoc(Select(init, keep), last);
      }
    }
  }

  /** A list whose elements occur in another one in the same order. */
  ghost predicate Follows(live: seq<Backend>, backends: seq<Backend>) {
    forall i, j :: 0 <= i < j < |backends| ==> RouteOrder.Before(live, backends[i], backends[j])
  }

  /** Selecting keeps the order. */
  lemma {:induction false} SelectIsStable(backends: seq<Backend>, keep: Backend -> bool, i: nat, j: nat)
    requires i < j < |Select(backends, keep)|
    ensures RouteOrder.Before(backends, Select(backends, keep)[i], Select(backends, keep)[j])
  {
    var init, last := backends[..|backends| - 1], backends[|backends| - 1];
    var kept := Select(init, keep);
    if j < |kept| {
      SelectIsStable(init, keep, i, j);
      RouteOrder.BeforeInLonger(init, backends, kept[i], kept[j]);
    } else {
      assert kept[i] in kept;
      var k :| 0 <= k < |init| && init[k] == kept[i];
      assert backends[k] == kept[i] && backends[|backends| - 1] == last;
    }
  }

  lemma JoinIsUnique(a: seq<Backend>, b: seq<Backend>)
    requires UniqueIds(a) && UniqueIds(b) && forall x, y :: x in a && y in b ==> x.id != y.id
    ensures UniqueIds(a + b)
  {
    var all := a + b;
    forall i, j | 0 <= i < j < |all| ensures all[i].id != all[j].id {
      assert j < |a| ==> all[i] == a[i] && all[j] == a[j];
      assert i >= |a| ==> all[i] == b[i - |a|] && all[j] == b[j - |a|];
      assert i < |a| <= j ==> all[i] in a && all[j] in b;
    }
  }

  /** A provider a pass must consider: in the captured list and still in the live one. */
  ghost predicate IsListed(world: World, now: nat, req: Request, id: string) {
    req.captured.Some? ==>
      var routes, captured := world.table(now).routes, req.captured.value;
      id in captured.route.spec.providers && captured.key in routes && id in routes[captured.key].spec.providers
  }

  /** Exactly the providers a pass must consider. */
  ghost predicate IsCohort(world: World, now: nat, req: Request, backends: seq<Backend>) {
    UniqueIds(backends) && forall b :: b in backends <==> b in req.config && IsListed(world, now, req, b.id)
  }

  /** The order of the live route, or of all providers. */
  function LiveOrder(world: World, now: nat, req: Request): seq<Backend> {
    var t := world.table(now);
    RouteOrder.Order(t.routes, t.preferred, req.rotateOnFailure, req.config, req.Key(), world.health(now))
  }

  lemma LiveOrderIsUnique(world: World, now: nat, req: Request)
    requires Lawful(world) && UniqueIds(req.config)
    ensures UniqueIds(LiveOrder(world, now, req))
    ensures forall b :: b in LiveOrder(world, now, req) <==>
              b in RouteOrder.Listed(world.table(now).routes, req.config, req.Key())
  {
    var t := world.table(now);
    var listed := RouteOrder.Listed(t.routes, req.config, req.Key());
    if req.captured.Some? && req.captured.value.key in t.routes {
      var key := req.captured.value.key;
      assert RouteTables.GoodRoute(key, t.routes[key], t.config, t.released);
      RouteOrder.ConfiguredIsUnique(t.routes[key].spec.providers, req.config);
    }
    RouteOrder.OrderReorders(t.routes, t.preferred, req.rotateOnFailure, req.config, req.Key(), world.health(now));
    RouteOrder.ReorderIsUnique(listed, LiveOrder(world, now, req));
  }

  lemma ListedInBoth(world: World, now: nat, req: Request, b: Backend)
    requires UniqueIds(req.config)
    ensures b in RouteOrder.Listed(world.table(now).routes, req.config, req.Key())
            && (req.captured.Some? ==> b.id in req.captured.value.route.spec.providers)
            <==> b in req.config && IsListed(world, now, req, b.id)
  {
    var routes := world.table(now).routes;
    if req.captured.Some? && req.captured.value.key in routes {
      var ids := routes[req.captured.value.key].spec.providers;
      if b in req.config && b.id in ids {
        RouteOrder.ConfiguredHasAll(ids, req.config, b);
      }
    }
  }

  /** The live order restricted to the captured list. */
  method Cohort(world: World, now: nat, req: Request) returns (order: seq<Backend>)
    requires Lawful(world) && UniqueIds(req.config)
    ensures IsCohort(world, now, req, order)
    ensures Follows(LiveOrder(world, now, req), order)
  {
    var live := LiveOrder(world, now, req);
    LiveOrderIsUnique(world, now, req);
    forall b ensures b in live && (req.captured.Some? ==> b.id in req.captured.value.route.spec.providers)
                     <==> b in req.config && IsListed(world, now, req, b.id) {
      ListedInBoth(world, now, req, b);
    }
    if req.captured.None? {
      return live;
    }
    var captured := (b: Backend) => b.id in req.captured.value.route.spec.providers;
    SelectIsUnique(live, captured);
    SelectFollows(live, live, captured);
    order := Select(live, captured);
  }

  /** Providers under soft pressure come last. */
  ghost predicate SoftLast(h: Health, order: seq<Backend>) {
    forall i, j :: 0 <= i < j < |order| && h.soft(order[i]) ==> h.soft(order[j])
  }

  /** Providers under the same pressure keep the live order. */
  ghost predicate KeepsOrder(h: Health, live: seq<Backend>, order: seq<Backend>) {
    forall i, j :: 0 <= i < j < |order| && h.soft(order[i]) == h.soft(order[j]) ==>
      RouteOrder.Before(live, order[i], order[j])
  }

  /**
   * The order of one pass: the live order restricted to the captured list,
   * providers below their soft limit first.
   */
  method Order(world: World, now: nat, req: Request) returns (order: seq<Backend>)
    requires Lawful(world) && UniqueIds(req.config)
    ensures IsCohort(world, now, req, order) && SoftLast(world.health(now), order)
    ensures KeepsOrder(world.health(now), LiveOrder(world, now, req), order)
    ensures forall b :: b in order ==> InCohort(req, b.id)
  {
    var cohort := Cohort(world, now, req);
    var h := world.health(now);
    var hard, soft := (b: Backend) => !h.soft(b), (b: Backend) => h.soft(b);
    SelectIsUnique(cohort, hard);
    SelectIsUnique(cohort, soft);
    SoftAndHardDiffer(cohort, hard, soft);
    HardThenSoft(h, Select(cohort, hard), Select(cohort, soft));
    SelectFollows(LiveOrder(world, now, req), cohort, hard);
    SelectFollows(LiveOrder(world, now, req), cohort, soft);
    JoinKeepsOrder(h, LiveOrder(world, now, req), Select(cohort, hard), Select(cohort, soft));
    order := Select(cohort, hard) + Select(cohort, soft);
  }

  lemma HardThenSoft(h: Health, hard: seq<Backend>, soft: seq<Backend>)
    requires (forall b :: b in hard ==> !h.soft(b)) && forall b :: b in soft ==> h.soft(b)
    ensures SoftLast(h, hard + soft)
  {
    var order := hard + soft;
    forall i, j | 0 <= i < j < |order| && h.soft(order[i]) ensures h.soft(order[j]) {
      assert order[i] !in hard;
      assert j >= |hard| ==> order[j] == soft[j - |hard|];
    }
  }

  lemma SoftAndHardDiffer(order: seq<Backend>, hard: Backend -> bool, soft: Backend -> bool)
    requires UniqueIds(order) && forall b :: hard(b) == !soft(b)
    requires UniqueIds(Select(order, hard)) && UniqueIds(Select(order, soft))
    ensures UniqueIds(Select(order, hard) + Select(order, soft))
    ensures forall b :: b in Select(order, hard) + Select(order, soft) <==> b in order
  {
    forall x, y | x in Select(order, hard) && y in Select(order, soft) ensures x.id != y.id {
      assert x in order && y in order && x != y;
    }
    JoinIsUnique(Select(order, hard), Select(order, soft));
  }

  lemma SelectFollows(live: seq<Backend>, cohort: seq<Backend>, keep: Backend -> bool)
    requires Follows(live, cohort)
    ensures Follows(live, Select(cohort, keep))
  {
    var kept := Select(cohort, keep);
    forall i, j | 0 <= i < j < |kept| ensures RouteOrder.Before(live, kept[i], kept[j]) {
      SelectIsStable(cohort, keep, i, j);
      var k, l :| 0 <= k < l < |cohort| && cohort[k] == kept[i] && cohort[l] == kept[j];
    }
  }

  lemma JoinKeepsOrder(h: Health, live: seq<Backend>, hard: seq<Backend>, soft: seq<Backend>)
    requires Follows(live, hard) && Follows(live, soft)
    requires (forall b :: b in hard ==> !h.soft(b)) && forall b :: b in soft ==> h.soft(b)
    ensures KeepsOrder(h, live, hard + soft)
  {
    var order := hard + soft;
    forall i, j | 0 <= i < j < |order| && h.soft(order[i]) == h.soft(order[j])
      ensures RouteOrder.Before(live, order[i], order[j])
    {
      assert if i < |hard| then order[i] == hard[i] else order[i] == soft[i - |hard|];
      assert if j < |hard| then order[j] == hard[j] else order[j] == soft[j - |hard|];
    }
  }

  // ---------------------------------------------------------------------
  // One try
  // ---------------------------------------------------------------------

  /** What became of one candidate. */
  datatype Step = Skipped | LimitReached | Refused | Sent(reply: Reply)

  predicate Tryable(world: World, now: nat, req: Request, b: Backend) {
    b.Usable() && world.health(now).admits(b, req.estimate) && !world.health(now).cooling(b)
  }

  /** What one candidate comes to when `attempts` were counted before. */
  ghost function Outcome(world: World, now: nat, req: Request, b: Backend, attempts: nat): Step {
    if !Tryable(world, now, req, b) then Skipped
    else if attempts >= MAX_ATTEMPTS then LimitReached
    else if !world.sendable(now, b) then Skipped
    else
      match world.begin(now, b)
      case OverBudget => Skipped
      case RouteGone => Refused
      case Started => Sent(world.reply(now, b))
  }

  /** Try one candidate; an attempt is counted before it begins. */
  method Try(world: World, now: nat, req: Request, b: Backend, attempts: nat) returns (step: Step, count: nat)
    requires attempts <= MAX_ATTEMPTS
    ensures step == Outcome(world, now, req, b, attempts)
    ensures count == if Tryable(world, now, req, b) && attempts < MAX_ATTEMPTS then attempts + 1 else attempts
  {
    if !b.Usable() {
      return Skipped, attempts;
    }
    if !world.health(now).admits(b, req.estimate) {
      return Skipped, attempts;
    }
    if world.health(now).cooling(b) {
      return Skipped, attempts;
    }
    if attempts >= MAX_ATTEMPTS {
      return LimitReached, attempts;
    }
    step, count := Skipped, attempts + 1;
    if world.sendable(now, b) {
      match world.begin(now, b) {
        case OverBudget => return;
        case RouteGone => step := Refused;
        case Started => step := Sent(world.reply(now, b));
      }
    }
  }

  // ---------------------------------------------------------------------
  // The log of a pass
  // ---------------------------------------------------------------------

  /** One candidate as it was tried: when, and after how many attempts. */
  datatype Tried = Tried(b: Backend, now: nat, attempts: nat)

  ghost predicate WasSent(world: World, req: Request, t: Tried) {
    Outcome(world, t.now, req, t.b, t.attempts).Sent?
  }

  ghost predicate WasCounted(world: World, req: Request, t: Tried) {
    Tryable(world, t.now, req, t.b) && t.attempts < MAX_ATTEMPTS
  }

  /** The ids of the candidates on which attempts began. */
  ghost function SentIds(world: World, req: Request, log: seq<Tried>): seq<string> {
    if log == [] then []
    else
      var last := log[|log| - 1];
      SentIds(world, req, log[..|log| - 1]) + if WasSent(world, req, last) then [last.b.id] else []
  }

  /** The number of attempts a log adds. */
  ghost function Counted(world: World, req: Request, log: seq<Tried>): nat {
    if log == [] then 0
    else
      Counted(world, req, log[..|log| - 1]) + if WasCounted(world, req, log[|log| - 1]) then 1 else 0
  }

  function TriedIds(log: seq<Tried>): seq<string> {
    if log == [] then [] else TriedIds(log[..|log| - 1]) + [log[|log| - 1].b.id]
  }

  lemma LogNext(world: World, req: Request, log: seq<Tried>, t: Tried)
    ensures TriedIds(log + [t]) == TriedIds(log) + [t.b.id]
    ensures SentIds(world, req, log + [t]) == SentIds(world, req, log) + if WasSent(world, req, t) then [t.b.id] else []
    ensures Counted(world, req, log + [t]) == Counted(world, req, log) + if WasCounted(world, req, t) then 1 else 0
  {
    assert (log + [t])[..|log|] == log;
  }

  /** A provider that an attempt begins on. */
  ghost predicate Begins(world: World, req: Request, t: Tried) {
    && t.b.Usable() && world.health(t.now).admits(t.b, req.estimate) && !world.health(t.now).cooling(t.b)
    && t.attempts < MAX_ATTEMPTS && world.sendable(t.now, t.b) && world.begin(t.now, t.b).Started?
  }

  /** A try that found the route released. */
  ghost predicate IsGone(world: World, req: Request, t: Tried) {
    && t.b.Usable() && world.health(t.now).admits(t.b, req.estimate) && !world.health(t.now).cooling(t.b)
    && t.attempts < MAX_ATTEMPTS && world.sendable(t.now, t.b) && world.begin(t.now, t.b).RouteGone?
  }

  /** A try whose answer goes to the client. */
  ghost predicate IsFinal(world: World, req: Request, t: Tried) {
    Begins(world, req, t) && world.reply(t.now, t.b).Final?
  }

  ghost predicate NoneStops(world: World, req: Request, log: seq<Tried>) {
    forall t :: t in log ==> !IsGone(world, req, t) && !IsFinal(world, req, t)
  }

  /**
   * Attempts begin exactly on the tried providers that are usable, within
   * budget and out of cooldown, below the limit, that can be sent to and
   * whose reservation succeeds.
   */
  lemma {:induction false} StartedExactly(world: World, req: Request, log: seq<Tried>, id: string)
    ensures id in SentIds(world, req, log) <==> exists t :: t in log && t.b.id == id && Begins(world, req, t)
  {
    if log == [] {
    } else {
      var init, last := log[..|log| - 1], log[|log| - 1];
      assert log == init + [last];
      StartedExactly(world, req, init, id);
      assert WasSent(world, req, last) <==> Begins(world, req, last);
    }
  }

  /** Every entry was tried after the attempts of the earlier ones. */
  ghost predicate CountsOn(world: World, req: Request, attempts: nat, log: seq<Tried>) {
    forall i :: 0 <= i < |log| ==> log[i].attempts == attempts + Counted(world, req, log[..i])
  }

  /** What a pass has done so far. */
  ghost predicate Progress(world: World, req: Request, attempts: nat, log: seq<Tried>, attempted: seq<string>,
                           started: seq<string>, count: nat)
  {
    && attempted == TriedIds(log) && started == SentIds(world, req, log)
    && Distinct(attempted) && Distinct(started) && AllInCohort(req, started)
    && (forall id :: id in started ==> id in attempted)
    && CountsOn(world, req, attempts, log)
    && count == attempts + Counted(world, req, log) <= MAX_ATTEMPTS && |started| <= Counted(world, req, log)
  }

  lemma DistinctSnoc(ids: seq<string>, id: string)
    requires Distinct(ids) && id !in ids
    ensures Distinct(ids + [id])
  {
  }

  lemma CountsOnNext(world: World, req: Request, attempts: nat, log: seq<Tried>, t: Tried)
    requires CountsOn(world, req, attempts, log) && t.attempts == attempts + Counted(world, req, log)
    ensures CountsOn(world, req, attempts, log + [t])
  {
    var next := log + [t];
    forall i | 0 <= i < |next| ensures next[i].attempts == attempts + Counted(world, req, next[..i]) {
      assert i < |log| ==> next[..i] == log[..i] && next[i] == log[i];
      assert next[..|log|] == log;
    }
  }

  /** What a pass has done after one more try. */
  lemma ProgressNext(world: World, req: Request, attempts: nat, log: seq<Tried>, attempted: seq<string>,
                     started: seq<string>, count: nat, t: Tried)
    requires Progress(world, req, attempts, log, attempted, started, count)
    requires t.attempts == count && t.b.id !in attempted && InCohort(req, t.b.id)
    ensures Progress(world, req, attempts, log + [t], attempted + [t.b.id],
                     if WasSent(world, req, t) then started + [t.b.id] else started,
                     if WasCounted(world, req, t) then count + 1 else count)
  {
    LogNext(world, req, log, t);
    CountsOnNext(world, req, attempts, log, t);
    DistinctSnoc(attempted, t.b.id);
    DistinctSnoc(started, t.b.id);
  }

  // ---------------------------------------------------------------------
  // One pass
  // ---------------------------------------------------------------------

  function Unattempted(order: seq<Backend>, attempted: seq<string>): seq<Backend> {
    Select(order, (b: Backend) => b.id !in attempted)
  }

  /** A request on a route with a role. */
  ghost predicate HasRole(req: Request) {
    req.captured.Some? && req.captured.value.route.spec.role != NoRole
  }

  /** Nothing is left to reserve: the route is gone, or no other provider of the pass is open to it. */
  ghost predicate NothingLeft(world: World, now: nat, req: Request, order: seq<Backend>, attempted: seq<string>) {
    HasRole(req)
    && var routes, key := world.table(now).routes, req.captured.value.key;
       key in routes ==>
         forall b :: b in order && b.id !in attempted ==> !IsOpen(routes[key], world.health(now), req.estimate, b)
  }

  /** What is reserved is open to the route, and no other untried provider of the pass is preferred to it. */
  ghost predicate BestLeft(world: World, now: nat, req: Request, order: seq<Backend>, attempted: seq<string>,
                           b: Backend) {
    HasRole(req) ==>
      var routes, key, h := world.table(now).routes, req.captured.value.key, world.health(now);
      key in routes && IsOpen(routes[key], h, req.estimate, b)
      && forall c :: c in order && c.id !in attempted && IsOpen(routes[key], h, req.estimate, c) ==>
           !Prefers(routes, routes[key], h, c, b)
  }

  /** The candidate whose turn it is: the next in order, or for a route with a role a reserved one. */
  method Turn(world: World, now: nat, req: Request, order: seq<Backend>, n: nat, attempted: seq<string>)
    returns (b: Option<Backend>)
    requires UniqueIds(order) && n < |order|
    requires !HasRole(req) ==> attempted == Ids(order[..n])
    ensures b.Some? ==> b.value in order && b.value.id !in attempted
    ensures b.Some? ==> BestLeft(world, now, req, order, attempted, b.value)
    ensures b.None? ==> NothingLeft(world, now, req, order, attempted)
    ensures !HasRole(req) ==> b == Some(order[n])
  {
    if req.Reserves() {
      var routes, key := world.table(now).routes, req.captured.value.key;
      if key !in routes {
        return None;
      }
      var candidates := Unattempted(order, attempted);
      b := Choose(routes, routes[key], candidates, req.estimate, world.health(now));
      ChoiceIsBest(routes, routes[key], candidates, req.estimate, world.health(now));
    } else {
      b := Some(order[n]);
    }
  }

  lemma NextInOrder(order: seq<Backend>, n: nat)
    requires n < |order|
    ensures Ids(order[..n + 1]) == Ids(order[..n]) + [order[n].id]
  {
    assert order[..n + 1] == order[..n] + [order[n]];
  }

  /** Try one provider of a pass and note it. */
  method TryNext(world: World, now: nat, req: Request, b: Backend, attempts: nat, started: seq<string>, count: nat,
                 ghost log: seq<Tried>, ghost attempted: seq<string>)
    returns (step: Step, begun: seq<string>, counted: nat)
    requires Progress(world, req, attempts, log, attempted, started, count)
    requires b.id !in attempted && InCohort(req, b.id)
    ensures Progress(world, req, attempts, log + [Tried(b, now, count)], attempted + [b.id], begun, counted)
    ensures step == Refused <==> IsGone(world, req, Tried(b, now, count))
    ensures step == Sent(Final) <==> IsFinal(world, req, Tried(b, now, count))
    ensures step.LimitReached? ==> counted == MAX_ATTEMPTS
  {
    step, counted := Try(world, now, req, b, count);
    begun := if step.Sent? then started + [b.id] else started;
    ProgressNext(world, req, attempts, log, attempted, started, count, Tried(b, now, count));
  }

  lemma ProgressStarts(world: World, req: Request, attempts: nat)
    requires attempts <= MAX_ATTEMPTS
    ensures Progress(world, req, attempts, [], [], [], attempts)
  {
  }

  /**
   * How a pass ended: at the first try that found the route released or whose
   * answer goes to the client, at the limit, or with nothing left to try.
   */
  ghost predicate Ended(world: World, now: nat, req: Request, order: seq<Backend>, log: seq<Tried>,
                        attempted: seq<string>, count: nat, answer: Option<Answer>)
  {
    match answer
    case None =>
      && NoneStops(world, req, log)
      && (count < MAX_ATTEMPTS ==>
            || (if HasRole(req) then |log| == |order| else attempted == Ids(order))
            || NothingLeft(world, now, req, order, attempted))
    case Some(Answered) => StopsAt(world, req, log) && IsFinal(world, req, log[|log| - 1])
    case Some(RouteUnavailable) => StopsAt(world, req, log) && IsGone(world, req, log[|log| - 1])
    case _ => false
  }

  ghost predicate StopsAt(world: World, req: Request, log: seq<Tried>) {
    log != [] && NoneStops(world, req, log[..|log| - 1])
  }

  lemma NextStops(world: World, req: Request, log: seq<Tried>, t: Tried)
    requires NoneStops(world, req, log)
    ensures StopsAt(world, req, log + [t])
    ensures !IsGone(world, req, t) && !IsFinal(world, req, t) ==> NoneStops(world, req, log + [t])
  {
    assert (log + [t])[..|log|] == log;
  }

  /**
   * One pass over the providers: each is tried at most once, attempts are
   * counted and begin exactly where the log says so and only within the limit,
   * and a pass that ends without an answer or the limit has tried everything.
   */
  method Pass(world: World, start: nat, req: Request, order: seq<Backend>, attempts: nat)
    returns (started: seq<string>, answer: Option<Answer>, count: nat, now: nat, ghost log: seq<Tried>,
             ghost attempted: seq<string>)
    requires attempts <= MAX_ATTEMPTS
    requires UniqueIds(order) && forall b :: b in order ==> InCohort(req, b.id)
    ensures Progress(world, req, attempts, log, attempted, started, count)
    ensures Ended(world, now, req, order, log, attempted, count, answer)
  {
    started, answer, count, now, log, attempted := [], None, attempts, start, [], [];
    ProgressStarts(world, req, attempts);
    var taken := [];
    for n := 0 to |order|
      invariant Progress(world, req, attempts, log, attempted, started, count)
      invariant NoneStops(world, req, log) && attempted == taken && |log| == n
      invariant !HasRole(req) ==> taken == Ids(order[..n])
    {
      var turn := Turn(world, now, req, order, n, taken);
      if turn.None? {
        return;
      }
      var b := turn.value;
      NextInOrder(order, n);
      NextStops(world, req, log, Tried(b, now + 1, count));
      var step, begun, counted := TryNext(world, now + 1, req, b, attempts, started, count, log, attempted);
      log, attempted, taken := log + [Tried(b, now + 1, count)], attempted + [b.id], taken + [b.id];
      started, count := begun, counted;
      now := now + 2;
      match step {
        case Skipped =>
        case LimitReached => return;
        case Refused => answer := Some(RouteUnavailable); return;
        case Sent(reply) => if reply.Final? { answer := Some(Answered); return; }
      }
    }
    assert order[..|order|] == order;
  }

  // ---------------------------------------------------------------------
  // The verdict after a pass
  // ---------------------------------------------------------------------

  predicate Blocked(world: World, now: nat, req: Request, b: Backend) {
    world.health(now).cooling(b) || !world.health(now).admits(b, req.estimate)
  }

  predicate Oversized(world: World, now: nat, req: Request, b: Backend) {
    req.estimate > world.hard(now, b)
  }

  /** Every usable provider cools down or is over its budget. */
  ghost predicate AllBlocked(world: World, now: nat, req: Request, order: seq<Backend>) {
    forall b :: b in order && b.enabled && b.hasKey ==>
      !(!world.health(now).cooling(b) && world.health(now).admits(b, req.estimate))
  }

  /** A usable provider that could ever take the request: its hard limit is not below the estimate. */
  ghost predicate CouldTake(world: World, now: nat, req: Request, b: Backend) {
    b.enabled && b.hasKey && world.hard(now, b) >= req.estimate
  }

  /** The least time for which a provider that could take the request stays blocked. */
  ghost predicate IsLeastWait(world: World, now: nat, req: Request, order: seq<Backend>, delay: real) {
    && (exists b :: b in order && CouldTake(world, now, req, b) && world.blockedFor(now, b) == delay)
    && forall b :: b in order && CouldTake(world, now, req, b) ==> delay <= world.blockedFor(now, b)
  }

  method LeastWait(world: World, now: nat, req: Request, order: seq<Backend>) returns (delay: real)
    ensures if exists b :: b in order && CouldTake(world, now, req, b) then IsLeastWait(world, now, req, order, delay)
            else delay == 0.0
  {
    var least: Option<real> := None;
    for n := 0 to |order|
      invariant least.None? ==> forall i :: 0 <= i < n ==> !CouldTake(world, now, req, order[i])
      invariant least.Some? ==>
                  && (exists b :: b in order && CouldTake(world, now, req, b)
                            && world.blockedFor(now, b) == least.value)
                  && forall i :: 0 <= i < n && CouldTake(world, now, req, order[i]) ==>
                       least.value <= world.blockedFor(now, order[i])
    {
      var b := order[n];
      if b.Usable() && !Oversized(world, now, req, b) && (least.None? || world.blockedFor(now, b) < least.value) {
        least := Some(world.blockedFor(now, b));
      }
    }
    delay := if least.Some? then least.value else 0.0;
  }

  /** A request waits only when every usable provider is blocked and one of them could take it. */
  method Verdict(world: World, now: nat, req: Request, order: seq<Backend>)
    returns (answer: Option<Answer>, delay: real)
    ensures answer.None? || answer == Some(Unavailable) || answer == Some(TokenBudgetExceeded)
    ensures answer == Some(Unavailable) <==>
              (forall b :: b in order ==> !b.enabled || !b.hasKey) || !AllBlocked(world, now, req, order)
    ensures answer.None? <==>
              AllBlocked(world, now, req, order) && exists b :: b in order && CouldTake(world, now, req, b)
    ensures answer.None? ==> IsLeastWait(world, now, req, order, delay)
  {
    var eligible := Select(order, (b: Backend) => b.Usable());
    delay := LeastWait(world, now, req, order);
    if eligible == [] || exists b :: b in eligible && !Blocked(world, now, req, b) {
      assert forall b :: b in eligible <==> b in order && b.Usable();
      return Some(Unavailable), delay;
    }
    assert eligible[0] in eligible;
    answer := if forall b :: b in eligible ==> Oversized(world, now, req, b) then Some(TokenBudgetExceeded) else None;
  }

  // ---------------------------------------------------------------------
  // The whole request
  // ---------------------------------------------------------------------

  /**
   * One pass as it went: when it was ordered and when it was over, the order,
   * what was tried, and the attempts counted before and after it.
   */
  datatype Round = Round(start: nat, order: seq<Backend>, log: seq<Tried>, end: nat, before: nat, after: nat)

  /** A pass over the providers to consider, in order, that began attempts on the providers `started`. */
  ghost predicate IsRound(world: World, req: Request, r: Round, started: seq<string>) {
    && IsCohort(world, r.start, req, r.order) && SoftLast(world.health(r.start), r.order)
    && KeepsOrder(world.health(r.start), LiveOrder(world, r.start, req), r.order)
    && Progress(world, req, r.before, r.log, TriedIds(r.log), started, r.after)
  }

  function CountAll(passes: seq<seq<string>>): nat {
    if passes == [] then 0 else CountAll(passes[..|passes| - 1]) + |passes[|passes| - 1]|
  }

  ghost predicate AllDisciplined(req: Request, passes: seq<seq<string>>) {
    forall i :: 0 <= i < |passes| ==> Distinct(passes[i]) && AllInCohort(req, passes[i])
  }

  /** Order the providers and pass over them once. */
  method NextPass(world: World, start: nat, req: Request, attempts: nat)
    returns (started: seq<string>, done: Option<Answer>, count: nat, now: nat, order: seq<Backend>, ghost round: Round)
    requires Lawful(world) && UniqueIds(req.config) && attempts <= MAX_ATTEMPTS
    ensures round.order == order && round.end == now && round.before == attempts && round.after == count
    ensures IsRound(world, req, round, started)
    ensures Ended(world, now, req, order, round.log, TriedIds(round.log), count, done)
  {
    order := Order(world, start, req);
    ghost var log, attempted;
    started, done, count, now, log, attempted := Pass(world, start + 1, req, order, attempts);
    round := Round(start, order, log, now, attempts, count);
  }

  /** Whole seconds, rounded up, at least one. */
  function RetryAfter(delay: real): (seconds: nat)
    ensures seconds >= 1 && delay <= seconds as real && (seconds > 1 ==> seconds as real < delay + 1.0)
  {
    var up := -((-delay).Floor);
    if up > 1 then up else 1
  }

  /** The wait after a pass: the request could do nothing else, and waits for the first provider to be ready. */
  ghost predicate WaitsAfter(world: World, req: Request, r: Round, w: Wait) {
    && NoneStops(world, req, r.log) && r.after < MAX_ATTEMPTS
    && AllBlocked(world, r.end, req, r.order) && IsLeastWait(world, r.end, req, r.order, w.delay)
    && w.elapsed == world.elapsed(r.end)
  }

  /**
   * What the answer of a request says about its last pass; `spent` when its
   * wait budget is used up.
   */
  ghost predicate Concludes(world: World, req: Request, r: Round, spent: bool, answer: Answer) {
    match answer
    case Answered => StopsAt(world, req, r.log) && IsFinal(world, req, r.log[|r.log| - 1])
    case RouteUnavailable => StopsAt(world, req, r.log) && IsGone(world, req, r.log[|r.log| - 1])
    case Unavailable =>
      && NoneStops(world, req, r.log)
      && ((forall b :: b in r.order ==> !b.enabled || !b.hasKey) || !AllBlocked(world, r.end, req, r.order))
    case TokenBudgetExceeded =>
      && NoneStops(world, req, r.log) && AllBlocked(world, r.end, req, r.order)
      && (exists b :: b in r.order && b.enabled && b.hasKey)
      && forall b :: b in r.order ==> !CouldTake(world, r.end, req, b)
    case Exhausted(retryAfter) =>
      && NoneStops(world, req, r.log) && AllBlocked(world, r.end, req, r.order)
      && (r.after == MAX_ATTEMPTS || spent)
      && exists delay :: IsLeastWait(world, r.end, req, r.order, delay) && RoundsUp(delay, retryAfter)
  }

  /** Whole seconds that are not less than a delay, and at least one. */
  ghost predicate RoundsUp(delay: real, seconds: nat) {
    seconds >= 1 && delay <= seconds as real && (seconds > 1 ==> seconds as real < delay + 1.0)
  }

  /** A look at the last pass allows one answer only. */
  lemma AnswerIsDetermined(world: World, req: Request, r: Round, spent: bool, a: Answer, b: Answer)
    requires Concludes(world, req, r, spent, a) && Concludes(world, req, r, spent, b)
    ensures a == b
  {
    if r.log != [] {
      assert r.log[|r.log| - 1] in r.log;
    }
    if a.Exhausted? && b.Exhausted? {
      var x :| IsLeastWait(world, r.end, req, r.order, x) && RoundsUp(x, a.retryAfter);
      var y :| IsLeastWait(world, r.end, req, r.order, y) && RoundsUp(y, b.retryAfter);
      assert x == y;
    }
  }

  lemma DoneConcludes(world: World, req: Request, r: Round, done: Answer, spent: bool)
    requires Ended(world, r.end, req, r.order, r.log, TriedIds(r.log), r.after, Some(done))
    ensures Concludes(world, req, r, spent, done)
  {
  }

  /** One pass and what follows from it: an answer, or a wait. */
  method PassOrWait(world: World, start: nat, req: Request, attempts: nat, remaining: real)
    returns (started: seq<string>, answer: Option<Answer>, wait: Wait, count: nat, now: nat, ghost round: Round)
    requires Lawful(world) && UniqueIds(req.config) && attempts <= MAX_ATTEMPTS
    ensures IsRound(world, req, round, started) && round.before == attempts && round.after == count <= MAX_ATTEMPTS
    ensures answer.Some? ==> Concludes(world, req, round, remaining <= 0.0, answer.value)
    ensures answer.None? ==> WaitsAfter(world, req, round, wait) && remaining > 0.0
  {
    var order;
    started, answer, count, now, order, round := NextPass(world, start, req, attempts);
    wait := Wait(0.0, 0.0);
    if answer.Some? {
      DoneConcludes(world, req, round, answer.value, remaining <= 0.0);
      return;
    }
    var delay;
    answer, delay := Verdict(world, now, req, order);
    if answer.None? {
      if remaining <= 0.0 || count >= MAX_ATTEMPTS {
        answer := Some(Exhausted(RetryAfter(delay)));
      } else {
        wait := Wait(delay, world.elapsed(now));
        now := now + 1;
      }
    }
  }

  /**
   * A request that has gone through some passes, each counting on from the
   * one before, and waited after each of them.
   */
  ghost predicate Ongoing(world: World, req: Request, rounds: seq<Round>, passes: seq<seq<string>>, waits: seq<Wait>,
                          attempts: nat)
    decreases |rounds|
  {
    && |rounds| == |passes| == |waits|
    && if rounds == [] then attempts == 0
       else
         var n := |rounds| - 1;
         && Ongoing(world, req, rounds[..n], passes[..n], waits[..n], rounds[n].before)
         && IsRound(world, req, rounds[n], passes[n]) && WaitsAfter(world, req, rounds[n], waits[n])
         && rounds[n].after == attempts <= MAX_ATTEMPTS
  }

  lemma OngoingNext(world: World, req: Request, rounds: seq<Round>, passes: seq<seq<string>>, waits: seq<Wait>,
                    r: Round, started: seq<string>, w: Wait)
    requires Ongoing(world, req, rounds, passes, waits, r.before)
    requires IsRound(world, req, r, started) && WaitsAfter(world, req, r, w) && r.after <= MAX_ATTEMPTS
    ensures Ongoing(world, req, rounds + [r], passes + [started], waits + [w], r.after)
  {
    var n := |rounds|;
    assert (rounds + [r])[..n] == rounds && (passes + [started])[..n] == passes && (waits + [w])[..n] == waits;
  }

  /** A request that was answered after its last pass; `spent` when its wait budget was used up. */
  ghost predicate WasAnswered(world: World, req: Request, rounds: seq<Round>, passes: seq<seq<string>>,
                              waits: seq<Wait>, attempts: nat, spent: bool, answer: Answer)
  {
    && rounds != [] && |rounds| == |passes|
    && var n := |rounds| - 1;
       && Ongoing(world, req, rounds[..n], passes[..n], waits, rounds[n].before)
       && IsRound(world, req, rounds[n], passes[n]) && rounds[n].after == attempts
       && Concludes(world, req, rounds[n], spent, answer)
  }

  lemma AnsweredNow(world: World, req: Request, rounds: seq<Round>, passes: seq<seq<string>>, waits: seq<Wait>,
                    r: Round, started: seq<string>, spent: bool, answer: Answer)
    requires Ongoing(world, req, rounds, passes, waits, r.before)
    requires IsRound(world, req, r, started) && Concludes(world, req, r, spent, answer)
    ensures WasAnswered(world, req, rounds + [r], passes + [started], waits, r.after, spent, answer)
  {
    var n := |rounds|;
    assert (rounds + [r])[..n] == rounds && (passes + [started])[..n] == passes;
  }

  lemma {:induction false} OngoingIsDisciplined(world: World, req: Request, rounds: seq<Round>,
                                                passes: seq<seq<string>>, waits: seq<Wait>, attempts: nat)
    requires Ongoing(world, req, rounds, passes, waits, attempts)
    ensures CountAll(passes) <= attempts <= MAX_ATTEMPTS && AllDisciplined(req, passes)
    decreases |rounds|
  {
    if rounds == [] {
    } else {
      var n := |rounds| - 1;
      OngoingIsDisciplined(world, req, rounds[..n], passes[..n], waits[..n], rounds[n].before);
      RoundIsDisciplined(world, req, rounds[n], passes[n]);
      DisciplinedNext(req, passes);
    }
  }

  lemma RoundIsDisciplined(world: World, req: Request, r: Round, started: seq<string>)
    requires IsRound(world, req, r, started)
    ensures r.before + |started| <= r.after <= MAX_ATTEMPTS
    ensures Distinct(started) && AllInCohort(req, started) && Distinct(TriedIds(r.log))
  {
  }

  lemma DisciplinedNext(req: Request, passes: seq<seq<string>>)
    requires passes != [] && AllDisciplined(req, passes[..|passes| - 1])
    requires Distinct(passes[|passes| - 1]) && AllInCohort(req, passes[|passes| - 1])
    ensures AllDisciplined(req, passes)
  {
    forall i | 0 <= i < |passes| ensures Distinct(passes[i]) && AllInCohort(req, passes[i]) {
      assert i < |passes| - 1 ==> passes[i] == passes[..|passes| - 1][i];
    }
  }

  /** Every wait of a request followed a pass after which it could only wait. */
  lemma {:induction false} EveryWaitFits(world: World, req: Request, rounds: seq<Round>, passes: seq<seq<string>>,
                                         waits: seq<Wait>, attempts: nat, i: nat)
    requires Ongoing(world, req, rounds, passes, waits, attempts) && i < |rounds|
    ensures IsRound(world, req, rounds[i], passes[i]) && WaitsAfter(world, req, rounds[i], waits[i])
    decreases |rounds|
  {
    var n := |rounds| - 1;
    if i < n {
      EveryWaitFits(world, req, rounds[..n], passes[..n], waits[..n], rounds[n].before, i);
    }
  }

  /** A request that may go on: what it has done, and how long it may still wait. */
  ghost predicate MayGoOn(world: World, req: Request, rounds: seq<Round>, passes: seq<seq<string>>, waits: seq<Wait>,
                          attempts: nat, remaining: real, tick: real, limit: nat)
  {
    && Ongoing(world, req, rounds, passes, waits, attempts) && OnTime(waits, req.WaitBudget(), tick, limit)
    && remaining == Remaining(waits, req.WaitBudget())
  }

  lemma GoesOn(world: World, req: Request, rounds: seq<Round>, passes: seq<seq<string>>, waits: seq<Wait>,
               remaining: real, tick: real, limit: nat, r: Round, started: seq<string>, w: Wait)
    requires MayGoOn(world, req, rounds, passes, waits, r.before, remaining, tick, limit)
    requires IsRound(world, req, r, started) && WaitsAfter(world, req, r, w) && r.after <= MAX_ATTEMPTS
    requires Ticks(world, tick) && req.WaitBudget() >= 0.0 && limit as real * tick >= req.WaitBudget()
    requires remaining > 0.0
    ensures MayGoOn(world, req, rounds + [r], passes + [started], waits + [w], r.after,
                    Max(remaining - w.elapsed, 0.0), tick, limit)
    ensures |waits| < limit
  {
    OngoingNext(world, req, rounds, passes, waits, r, started, w);
    WaitAgain(waits, w, req.WaitBudget(), tick, limit);
  }

  /** What is true of an answered request; `spent` when its wait budget was used up. */
  ghost predicate IsAnswer(world: World, req: Request, rounds: seq<Round>, passes: seq<seq<string>>,
                           waits: seq<Wait>, attempts: nat, spent: bool, answer: Answer)
  {
    && WasAnswered(world, req, rounds, passes, waits, attempts, spent, answer)
    && Waited(waits, req.WaitBudget()) && (spent <==> Elapsed(waits) >= req.WaitBudget())
  }

  lemma Answers(world: World, req: Request, rounds: seq<Round>, passes: seq<seq<string>>, waits: seq<Wait>,
                remaining: real, tick: real, limit: nat, r: Round, started: seq<string>, spent: bool, answer: Answer)
    requires MayGoOn(world, req, rounds, passes, waits, r.before, remaining, tick, limit)
    requires IsRound(world, req, r, started) && Concludes(world, req, r, spent, answer)
    requires req.WaitBudget() >= 0.0 && (spent <==> remaining <= 0.0)
    ensures IsAnswer(world, req, rounds + [r], passes + [started], waits, r.after, spent, answer)
  {
    RemainingIsRest(waits, req.WaitBudget());
    AnsweredNow(world, req, rounds, passes, waits, r, started, spent, answer);
  }

  /**
   * A request begins at most 64 attempts in all of its passes; a pass tries
   * each provider at most once, and only captured ones.
   */
  lemma AnswerIsDisciplined(world: World, req: Request, rounds: seq<Round>, passes: seq<seq<string>>,
                            waits: seq<Wait>, attempts: nat, spent: bool, answer: Answer)
    requires IsAnswer(world, req, rounds, passes, waits, attempts, spent, answer)
    ensures CountAll(passes) <= attempts <= MAX_ATTEMPTS && AllDisciplined(req, passes)
  {
    var n := |rounds| - 1;
    OngoingIsDisciplined(world, req, rounds[..n], passes[..n], waits, rounds[n].before);
    RoundIsDisciplined(world, req, rounds[n], passes[n]);
    DisciplinedNext(req, passes);
  }

  lemma MayStart(world: World, req: Request, tick: real, limit: nat)
    requires req.WaitBudget() >= 0.0
    ensures MayGoOn(world, req, [], [], [], 0, req.WaitBudget(), tick, limit)
  {
  }

  /**
   * One request: passes over the providers with waits between them, and an
   * answer that is determined by the last pass. It ends, whatever the world
   * does, if every wake-up advances the clock.
   */
  method Forward(world: World, req: Request, ghost tick: real)
    returns (answer: Answer, passes: seq<seq<string>>, waits: seq<Wait>, attempts: nat, ghost rounds: seq<Round>,
             ghost spent: bool)
    requires Lawful(world) && Ticks(world, tick) && UniqueIds(req.config) && req.WaitBudget() >= 0.0
    ensures IsAnswer(world, req, rounds, passes, waits, attempts, spent, answer)
    ensures CountAll(passes) <= attempts <= MAX_ATTEMPTS && AllDisciplined(req, passes)
  {
    passes, waits, attempts, rounds, spent := [], [], 0, [], false;
    var now, remaining := 0, req.WaitBudget();
    ghost var limit := EnoughTicks(remaining, tick);
    MayStart(world, req, tick, limit);
    while true
      invariant MayGoOn(world, req, rounds, passes, waits, attempts, remaining, tick, limit)
      decreases limit - |waits|
    {
      var started, done, wait, count;
      ghost var round;
      spent := remaining <= 0.0;
      started, done, wait, count, now, round := PassOrWait(world, now, req, attempts, remaining);
      if done.Some? {
        answer := done.value;
        Answers(world, req, rounds, passes, waits, remaining, tick, limit, round, started, spent, answer);
        passes, attempts, rounds := passes + [started], count, rounds + [round];
        AnswerIsDisciplined(world, req, rounds, passes, waits, attempts, spent, answer);
        return;
      }
      GoesOn(world, req, rounds, passes, waits, remaining, tick, limit, round, started, wait);
      passes, attempts, rounds := passes + [started], count, rounds + [round];
      waits, remaining := waits + [wait], Max(remaining - wait.elapsed, 0.0);
    }
  }
}
