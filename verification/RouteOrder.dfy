/**
 * The order in which a request tries providers, and the provider that follows
 * a failed one (src/proxy/runtime.rs, `order` and the second half of
 * `rotate`).
 */
module RouteOrder {
  import opened Prelude
  import opened Config
  import opened Routing

  /** The configured providers of a list, in its order. */
  function Configured(ids: seq<string>, config: seq<Backend>): (found: seq<Backend>)
    ensures forall b :: b in found ==> b in config && b.id in ids
  {
    if ids == [] then []
    else
      var last := Find(config, ids[|ids| - 1]);
      Configured(ids[..|ids| - 1], config) + if last.Some? then [last.value] else []
  }

  function IndexOf(backends: seq<Backend>, id: string): (n: nat)
    ensures n <= |backends| && (n < |backends| ==> backends[n].id == id)
    ensures forall i :: 0 <= i < n ==> backends[i].id != id
  {
    if backends == [] || backends[0].id == id then 0 else 1 + IndexOf(backends[1..], id)
  }

  /** The list from the provider with an id on, continued from its start. */
  function StartAt(backends: seq<Backend>, id: string): seq<Backend> {
    var n := IndexOf(backends, id);
    if n < |backends| then backends[n..] + backends[..n] else backends
  }

  function AttemptsOn(route: TaskRoute, b: Backend): (n: nat)
    ensures forall k :: k in route.attempts && k == b.id ==> n == route.attempts[k]
    ensures b.id !in route.attempts.Keys ==> n == 0
  {
    if b.id in route.attempts then route.attempts[b.id] else 0
  }

  /** Fewer requests in flight, then fewer attempts of the route. */
  predicate LessBusy(route: TaskRoute, h: Health, a: Backend, b: Backend) {
    || h.inFlight(a) < h.inFlight(b)
    || (h.inFlight(a) == h.inFlight(b) && AttemptsOn(route, a) < AttemptsOn(route, b))
  }

  function InsertByLoad(route: TaskRoute, h: Health, b: Backend, sorted: seq<Backend>): seq<Backend> {
    if sorted == [] then [b]
    else if !LessBusy(route, h, b, sorted[|sorted| - 1]) then sorted + [b]
    else InsertByLoad(route, h, b, sorted[..|sorted| - 1]) + [sorted[|sorted| - 1]]
  }

  /** A stable sort by load. */
  function SortByLoad(route: TaskRoute, h: Health, backends: seq<Backend>): seq<Backend> {
    if backends == [] then []
    else InsertByLoad(route, h, backends[|backends| - 1], SortByLoad(route, h, backends[..|backends| - 1]))
  }

  /**
   * The order for a request: of its live route, which may be gone, or of all
   * providers. A balanced route goes by load, another one starts at its
   * preference.
   */
  function Order(routes: Routes, preferred: string, rotateOnFailure: bool, config: seq<Backend>,
                 key: Option<string>, h: Health)
    : seq<Backend>
  {
    match key
    case None => if rotateOnFailure then StartAt(config, preferred) else config
    case Some(k) =>
      if k !in routes then []
      else
        var route := routes[k];
        var listed := Configured(route.spec.providers, config);
        if route.spec.strategy.Balanced? then SortByLoad(route, h, listed) else StartAt(listed, route.preferred)
  }

  /** The providers that follow a failed one, cyclically; those after the first if it is not there. */
  function Following(order: seq<Backend>, failed: string): seq<Backend> {
    if order == [] then []
    else
      var found := IndexOf(order, failed);
      var n := if found < |order| then found else 0;
      order[n + 1..] + order[..n]
  }

  function FirstReady(backends: seq<Backend>, h: Health): (first: Option<Backend>)
    ensures first.Some? ==> first.value in backends && first.value.Usable() && !h.cooling(first.value)
    ensures first.None? <==> forall b :: b in backends ==> !b.Usable() || h.cooling(b)
  {
    if backends == [] then None
    else if backends[0].Usable() && !h.cooling(backends[0]) then Some(backends[0])
    else FirstReady(backends[1..], h)
  }

  /** The ready provider that takes over from a failed one. */
  function NextReady(order: seq<Backend>, failed: string, h: Health): Option<string> {
    var first := FirstReady(Following(order, failed), h);
    if first.Some? then Some(first.value.id) else None
  }

  // ---------------------------------------------------------------------
  // An order loses and invents nothing
  // ---------------------------------------------------------------------

  lemma StartAtReorders(backends: seq<Backend>, id: string)
    ensures multiset(StartAt(backends, id)) == multiset(backends)
  {
    var n := IndexOf(backends, id);
    assert backends == backends[..n] + backends[n..];
  }

  lemma {:induction false} InsertReorders(route: TaskRoute, h: Health, b: Backend, sorted: seq<Backend>)
    ensures multiset(InsertByLoad(route, h, b, sorted)) == multiset(sorted) + multiset{b}
  {
    if sorted == [] {
    } else {
      assert sorted == sorted[..|sorted| - 1] + [sorted[|sorted| - 1]];
      InsertReorders(route, h, b, sorted[..|sorted| - 1]);
    }
  }

  lemma {:induction false} SortReorders(route: TaskRoute, h: Health, backends: seq<Backend>)
    ensures multiset(SortByLoad(route, h, backends)) == multiset(backends)
  {
    if backends == [] {
    } else {
      var init, last := backends[..|backends| - 1], backends[|backends| - 1];
      assert backends == init + [last];
      SortReorders(route, h, init);
      InsertReorders(route, h, last, SortByLoad(route, h, init));
    }
  }

  /** The providers an order is made of. */
  function Listed(routes: Routes, config: seq<Backend>, key: Option<string>): seq<Backend> {
    match key
    case None => config
    case Some(k) => if k in routes then Configured(routes[k].spec.providers, config) else []
  }

  /** An order is a rearrangement of the providers it is made of. */
  lemma OrderReorders(routes: Routes, preferred: string, rotateOnFailure: bool, config: seq<Backend>,
                      key: Option<string>, h: Health)
    ensures multiset(Order(routes, preferred, rotateOnFailure, config, key, h)) == multiset(Listed(routes, config, key))
  {
    StartAtReorders(config, preferred);
    if key.Some? && key.value in routes {
      var route := routes[key.value];
      StartAtReorders(Listed(routes, config, key), route.preferred);
      SortReorders(route, h, Listed(routes, config, key));
    }
  }

  /** Fewer requests in flight, or as many and no more attempts of the route. */
  ghost predicate NoBusier(route: TaskRoute, h: Health, a: Backend, b: Backend) {
    || h.inFlight(a) < h.inFlight(b)
    || (h.inFlight(a) == h.inFlight(b) && AttemptsOn(route, a) <= AttemptsOn(route, b))
  }

  ghost predicate SortedByLoad(route: TaskRoute, h: Health, backends: seq<Backend>) {
    forall i, j :: 0 <= i < j < |backends| ==> NoBusier(route, h, backends[i], backends[j])
  }

  lemma InsertMembers(route: TaskRoute, h: Health, b: Backend, sorted: seq<Backend>)
    ensures forall c :: c in InsertByLoad(route, h, b, sorted) ==> c in sorted || c == b
  {
    InsertReorders(route, h, b, sorted);
    forall c | c in InsertByLoad(route, h, b, sorted) ensures c in sorted || c == b {
      assert c in multiset(InsertByLoad(route, h, b, sorted));
    }
  }

  lemma LastStays(route: TaskRoute, h: Health, init: seq<Backend>, b: Backend, last: Backend, inserted: seq<Backend>)
    requires SortedByLoad(route, h, init + [last]) && SortedByLoad(route, h, inserted) && LessBusy(route, h, b, last)
    requires forall c :: c in inserted ==> c in init || c == b
    ensures SortedByLoad(route, h, inserted + [last])
  {
    forall c | c in inserted ensures NoBusier(route, h, c, last) {
      if c in init {
        var i :| 0 <= i < |init| && init[i] == c;
        assert (init + [last])[i] == c && (init + [last])[|init|] == last;
      }
    }
  }

  lemma {:induction false} InsertKeepsSorted(route: TaskRoute, h: Health, b: Backend, sorted: seq<Backend>)
    requires SortedByLoad(route, h, sorted)
    ensures SortedByLoad(route, h, InsertByLoad(route, h, b, sorted))
  {
    if sorted == [] {
    } else if LessBusy(route, h, b, sorted[|sorted| - 1]) {
      var init, last := sorted[..|sorted| - 1], sorted[|sorted| - 1];
      InsertKeepsSorted(route, h, b, init);
      InsertMembers(route, h, b, init);
      assert sorted == init + [last];
      LastStays(route, h, init, b, last, InsertByLoad(route, h, b, init));
    }
  }

  /** A balanced route tries the least busy provider first, then the next. */
  lemma {:induction false} SortSorts(route: TaskRoute, h: Health, backends: seq<Backend>)
    ensures SortedByLoad(route, h, SortByLoad(route, h, backends))
  {
    if backends == [] {
    } else {
      SortSorts(route, h, backends[..|backends| - 1]);
      InsertKeepsSorted(route, h, backends[|backends| - 1], SortByLoad(route, h, backends[..|backends| - 1]));
    }
  }

  ghost predicate Before(backends: seq<Backend>, x: Backend, y: Backend) {
    exists i, j :: 0 <= i < j < |backends| && backends[i] == x && backends[j] == y
  }

  lemma BeforeInLonger(init: seq<Backend>, backends: seq<Backend>, x: Backend, y: Backend)
    requires init <= backends && Before(init, x, y)
    ensures Before(backends, x, y)
  {
    var i, j :| 0 <= i < j < |init| && init[i] == x && init[j] == y;
    assert backends[i] == x && backends[j] == y;
  }

  /** Where a provider is inserted: all that follow are busier. */
  lemma {:induction false} InsertPlace(route: TaskRoute, h: Health, b: Backend, sorted: seq<Backend>) returns (p: nat)
    ensures p <= |sorted| && InsertByLoad(route, h, b, sorted) == sorted[..p] + [b] + sorted[p..]
    ensures forall k :: p <= k < |sorted| ==> LessBusy(route, h, b, sorted[k])
  {
    if sorted == [] || !LessBusy(route, h, b, sorted[|sorted| - 1]) {
      p := |sorted|;
    } else {
      var init, last := sorted[..|sorted| - 1], sorted[|sorted| - 1];
      p := InsertPlace(route, h, b, init);
      assert init[p..] + [last] == sorted[p..] && init[..p] == sorted[..p];
      forall k | p <= k < |sorted| ensures LessBusy(route, h, b, sorted[k]) {
        assert k < |init| ==> sorted[k] == init[k];
      }
    }
  }

  ghost predicate EquallyBusy(route: TaskRoute, h: Health, x: Backend, y: Backend) {
    h.inFlight(x) == h.inFlight(y) && AttemptsOn(route, x) == AttemptsOn(route, y)
  }

  /** Equally busy providers are in the order of the list. */
  ghost predicate Stable(route: TaskRoute, h: Health, backends: seq<Backend>, sorted: seq<Backend>) {
    forall i, j :: 0 <= i < j < |sorted| && EquallyBusy(route, h, sorted[i], sorted[j]) ==>
      Before(backends, sorted[i], sorted[j])
  }

  lemma InsertIsStable(route: TaskRoute, h: Health, init: seq<Backend>, last: Backend, sorted: seq<Backend>)
    requires Stable(route, h, init, sorted) && forall b :: b in sorted ==> b in init
    ensures Stable(route, h, init + [last], InsertByLoad(route, h, last, sorted))
  {
    var p := InsertPlace(route, h, last, sorted);
    var backends, inserted := init + [last], InsertByLoad(route, h, last, sorted);
    forall i, j | 0 <= i < j < |inserted| && EquallyBusy(route, h, inserted[i], inserted[j])
      ensures Before(backends, inserted[i], inserted[j])
    {
      if i != p {
        var x := inserted[i];
        assert x == if i < p then sorted[i] else sorted[i - 1];
        if j == p {
          assert x in init;
          var k :| 0 <= k < |init| && init[k] == x;
          assert backends[k] == x && backends[|init|] == last;
        } else {
          assert inserted[j] == if j < p then sorted[j] else sorted[j - 1];
          BeforeInLonger(init, backends, x, inserted[j]);
        }
      }
    }
  }

  lemma {:induction false} SortIsStable(route: TaskRoute, h: Health, backends: seq<Backend>)
    ensures Stable(route, h, backends, SortByLoad(route, h, backends))
  {
    if backends == [] {
    } else {
      var init, last := backends[..|backends| - 1], backends[|backends| - 1];
      SortIsStable(route, h, init);
      SortReorders(route, h, init);
      forall b | b in SortByLoad(route, h, init) ensures b in init {
        assert b in multiset(SortByLoad(route, h, init));
      }
      assert backends == init + [last];
      InsertIsStable(route, h, init, last, SortByLoad(route, h, init));
    }
  }

  /** A list from its `n`-th element on, continued from its start. */
  ghost predicate IsRotation(backends: seq<Backend>, n: nat, order: seq<Backend>) {
    && n < |backends| == |order|
    && (forall i :: 0 <= i < |backends| - n ==> order[i] == backends[n + i])
    && (forall i :: |backends| - n <= i < |backends| ==> order[i] == backends[n + i - |backends|])
  }

  /** A list that starts at the first provider with an id, or as it is if there is none. */
  ghost predicate StartsAt(backends: seq<Backend>, id: string, order: seq<Backend>) {
    && (forall n: nat :: IsFirst(backends, id, n) ==> IsRotation(backends, n, order))
    && ((forall b :: b in backends ==> b.id != id) ==> order == backends)
  }

  lemma StartAtStartsAt(backends: seq<Backend>, id: string)
    ensures StartsAt(backends, id, StartAt(backends, id))
  {
    var k := IndexOf(backends, id);
    forall n: nat | IsFirst(backends, id, n) ensures n == k {}
    if k < |backends| {
      assert backends[k] in backends;
    }
  }

  /**
   * The order, exactly: of no route all providers, from the shared preference
   * on if it moves; of a route that is gone none; of a balanced route by load,
   * equally busy ones as listed; of another route from its preference on.
   */
  lemma OrderIsExact(routes: Routes, preferred: string, rotateOnFailure: bool, config: seq<Backend>,
                     key: Option<string>, h: Health)
    ensures var order := Order(routes, preferred, rotateOnFailure, config, key, h);
            match key
            case None => if rotateOnFailure then StartsAt(config, preferred, order) else order == config
            case Some(k) =>
              && (k !in routes ==> order == [])
              && (k in routes ==>
                    var route, listed := routes[k], Configured(routes[k].spec.providers, config);
                    if route.spec.strategy == Balanced
                    then SortedByLoad(route, h, order) && Stable(route, h, listed, order)
                         && multiset(order) == multiset(listed)
                    else StartsAt(listed, route.preferred, order))
  {
    StartAtStartsAt(config, preferred);
    if key.Some? && key.value in routes {
      var route := routes[key.value];
      var listed := Configured(route.spec.providers, config);
      StartAtStartsAt(listed, route.preferred);
      SortSorts(route, h, listed);
      SortIsStable(route, h, listed);
      SortReorders(route, h, listed);
    }
  }

  ghost predicate SameOrder(ids: seq<string>, first: string, second: string) {
    exists p, q :: 0 <= p < q < |ids| && ids[p] == first && ids[q] == second
  }

  /** The configured providers of a list: the first one with each configured id, in the order of the list. */
  ghost predicate Lists(found: seq<Backend>, ids: seq<string>, config: seq<Backend>) {
    && (forall b :: b in found ==> b.id in ids && exists n: nat :: IsFirst(config, b.id, n) && config[n] == b)
    && (forall id, n: nat :: id in ids && IsFirst(config, id, n) ==> config[n] in found)
    && (forall i, j :: 0 <= i < j < |found| ==> SameOrder(ids, found[i].id, found[j].id))
  }

  lemma SameOrderInLonger(init: seq<string>, last: string, first: string, second: string)
    requires SameOrder(init, first, second)
    ensures SameOrder(init + [last], first, second)
  {
    var p, q :| 0 <= p < q < |init| && init[p] == first && init[q] == second;
    assert (init + [last])[p] == first && (init + [last])[q] == second;
  }

  lemma LastInOrder(init: seq<string>, last: string, first: string)
    requires first in init
    ensures SameOrder(init + [last], first, last)
  {
    var p :| 0 <= p < |init| && init[p] == first;
    assert (init + [last])[p] == first && (init + [last])[|init|] == last;
  }

  lemma FirstIsFound(config: seq<Backend>, id: string)
    ensures forall n: nat :: IsFirst(config, id, n) ==> Find(config, id) == Some(config[n])
  {
    forall n: nat | IsFirst(config, id, n) ensures Find(config, id) == Some(config[n]) {
      FindIsFirst(config, id, n);
    }
  }

  lemma {:induction false} ConfiguredLists(ids: seq<string>, config: seq<Backend>)
    ensures Lists(Configured(ids, config), ids, config)
  {
    if ids == [] {
    } else {
      var init, last := ids[..|ids| - 1], ids[|ids| - 1];
      var found := Configured(init, config);
      ConfiguredLists(init, config);
      var n := FoundIsFirst(config, last);
      FirstIsFound(config, last);
      assert ids == init + [last];
      forall i, j | 0 <= i < j < |Configured(ids, config)|
        ensures SameOrder(ids, Configured(ids, config)[i].id, Configured(ids, config)[j].id)
      {
        assert found[i] in found;
        if j < |found| {
          SameOrderInLonger(init, last, found[i].id, found[j].id);
        } else {
          LastInOrder(init, last, found[i].id);
        }
      }
    }
  }

  // ---------------------------------------------------------------------
  // Each provider once
  // ---------------------------------------------------------------------

  lemma OneOccurrence(backends: seq<Backend>, b: Backend)
    requires UniqueIds(backends)
    ensures multiset(backends)[b] <= 1
  {
    if b in backends {
      var i :| 0 <= i < |backends| && backends[i] == b;
      assert backends == backends[..i] + [b] + backends[i + 1..];
      assert b !in backends[..i] && b !in backends[i + 1..];
    }
  }

  lemma TwoOccurrences(backends: seq<Backend>, i: nat, j: nat)
    requires i < j < |backends| && backends[i] == backends[j]
    ensures multiset(backends)[backends[i]] >= 2
  {
    assert backends == backends[..i] + [backends[i]] + backends[i + 1..j] + [backends[j]] + backends[j + 1..];
  }

  /** Reordering keeps ids unique. */
  lemma ReorderIsUnique(backends: seq<Backend>, reordered: seq<Backend>)
    requires UniqueIds(backends) && multiset(reordered) == multiset(backends)
    ensures UniqueIds(reordered) && forall b :: b in reordered <==> b in backends
  {
    forall b ensures b in reordered <==> b in backends {
      assert b in multiset(reordered) <==> b in multiset(backends);
    }
    forall i, j | 0 <= i < j < |reordered| ensures reordered[i].id != reordered[j].id {
      if reordered[i] == reordered[j] {
        TwoOccurrences(reordered, i, j);
        OneOccurrence(backends, reordered[i]);
        assert false;
      }
      assert reordered[i] in backends && reordered[j] in backends;
    }
  }

  lemma UniqueSnoc(backends: seq<Backend>, b: Backend)
    requires UniqueIds(backends) && forall c :: c in backends ==> c.id != b.id
    ensures UniqueIds(backends + [b])
  {
  }

  lemma {:induction false} ConfiguredIsUnique(ids: seq<string>, config: seq<Backend>)
    requires Distinct(ids)
    ensures UniqueIds(Configured(ids, config))
  {
    if ids == [] {
    } else {
      var init, last := ids[..|ids| - 1], ids[|ids| - 1];
      ConfiguredIsUnique(init, config);
      assert last !in init;
      if Find(config, last).Some? {
        UniqueSnoc(Configured(init, config), Find(config, last).value);
      }
    }
  }

  lemma {:induction false} ConfiguredHasAll(ids: seq<string>, config: seq<Backend>, b: Backend)
    requires UniqueIds(config) && b in config && b.id in ids
    ensures b in Configured(ids, config)
  {
    var init, last := ids[..|ids| - 1], ids[|ids| - 1];
    FindIsUnique(config, b);
    if b.id == last {
    } else {
      ConfiguredHasAll(init, config, b);
    }
  }

  /** What follows a provider of an order are exactly the other ones. */
  lemma FollowingIsRest(order: seq<Backend>, failed: string)
    requires UniqueIds(order) && exists b :: b in order && b.id == failed
    ensures forall b :: b in Following(order, failed) <==> b in order && b.id != failed
  {
    var n := IndexOf(order, failed);
    assert order == order[..n] + [order[n]] + order[n + 1..];
    forall b | b in Following(order, failed) ensures b in order && b.id != failed {
      if b in order[n + 1..] {
        var i :| 0 <= i < |order[n + 1..]| && order[n + 1..][i] == b;
        assert order[n + 1 + i] == b;
      }
    }
  }

  // ---------------------------------------------------------------------
  // The provider that takes over
  // ---------------------------------------------------------------------

  /** The `k`-th provider after position `n`, going round. */
  ghost function CyclicAt(order: seq<Backend>, n: nat, k: nat): Backend
    requires n < |order| && k < |order|
  {
    if n + k < |order| then order[n + k] else order[n + k - |order|]
  }

  ghost predicate IsReady(h: Health, b: Backend) {
    b.enabled && b.hasKey && !h.cooling(b)
  }

  ghost predicate FirstReadyAt(backends: seq<Backend>, h: Health, k: nat) {
    k < |backends| && IsReady(h, backends[k]) && forall j :: 0 <= j < k ==> !IsReady(h, backends[j])
  }

  lemma {:induction false} FirstReadyIsFirst(backends: seq<Backend>, h: Health) returns (k: nat)
    ensures FirstReady(backends, h).Some? <==> FirstReadyAt(backends, h, k)
    ensures FirstReady(backends, h).Some? ==> FirstReady(backends, h) == Some(backends[k])
  {
    k := 0;
    if backends != [] && !IsReady(h, backends[0]) {
      k := FirstReadyIsFirst(backends[1..], h);
      k := k + 1;
      assert forall j :: 0 <= j < |backends| - 1 ==> backends[1..][j] == backends[j + 1];
    }
  }

  /** The `k`-th after position `n` is the first ready one, not coming back to position `n`. */
  ghost predicate TakesOver(order: seq<Backend>, n: nat, k: nat, h: Health)
    requires n < |order|
  {
    && 0 < k < |order| && IsReady(h, CyclicAt(order, n, k))
    && forall j :: 0 < j < k ==> !IsReady(h, CyclicAt(order, n, j))
  }

  /** Where the failed provider is in an order; the first place if it is not there. */
  ghost predicate FailedAt(order: seq<Backend>, failed: string, n: nat) {
    n < |order| && (IsFirst(order, failed, n) || (n == 0 && forall b :: b in order ==> b.id != failed))
  }

  lemma FollowingAt(order: seq<Backend>, failed: string, n: nat)
    requires FailedAt(order, failed, n)
    ensures |Following(order, failed)| == |order| - 1
    ensures forall k :: 0 < k < |order| ==> Following(order, failed)[k - 1] == CyclicAt(order, n, k)
  {
    var found := IndexOf(order, failed);
    if found < |order| {
      assert order[found] in order;
    }
  }

  lemma TakesOverIsFirst(order: seq<Backend>, n: nat, h: Health, rest: seq<Backend>, k: nat)
    requires n < |order| && |rest| == |order| - 1
    requires forall j :: 0 < j < |order| ==> rest[j - 1] == CyclicAt(order, n, j)
    ensures FirstReadyAt(rest, h, k) <==> TakesOver(order, n, k + 1, h)
  {
    if TakesOver(order, n, k + 1, h) {
      forall j | 0 <= j < k ensures !IsReady(h, rest[j]) {
        assert !IsReady(h, CyclicAt(order, n, j + 1));
      }
      assert rest[k + 1 - 1] == CyclicAt(order, n, k + 1);
    }
    if FirstReadyAt(rest, h, k) {
      assert rest[k + 1 - 1] == CyclicAt(order, n, k + 1);
      forall j | 0 < j < k + 1 ensures !IsReady(h, CyclicAt(order, n, j)) {
        assert !IsReady(h, rest[j - 1]);
      }
    }
  }

  lemma FirstIsUnique(order: seq<Backend>, n: nat, h: Health, k: nat, l: nat)
    requires n < |order| && TakesOver(order, n, k, h) && TakesOver(order, n, l, h)
    ensures k == l
  {
  }

  /**
   * The first ready provider after the failed one takes over, going round the
   * order; after its first one if the failed one is not there; and none exactly
   * if no other one is ready.
   */
  lemma NextReadyIsNext(order: seq<Backend>, failed: string, h: Health, n: nat)
    requires FailedAt(order, failed, n)
    ensures forall k: nat :: TakesOver(order, n, k, h) ==> NextReady(order, failed, h) == Some(CyclicAt(order, n, k).id)
    ensures NextReady(order, failed, h).Some? ==> exists k: nat :: TakesOver(order, n, k, h)
  {
    var rest := Following(order, failed);
    FollowingAt(order, failed, n);
    var first := FirstReadyIsFirst(rest, h);
    TakesOverIsFirst(order, n, h, rest, first);
    forall k: nat | TakesOver(order, n, k, h)
      ensures NextReady(order, failed, h) == Some(CyclicAt(order, n, k).id)
    {
      TakesOverIsFirst(order, n, h, rest, k - 1);
      assert rest[k - 1] in rest && IsReady(h, rest[k - 1]);
      FirstIsUnique(order, n, h, k, first + 1);
    }
  }
}
