/**
 * The rolling token budget of one provider (src/proxy/token_budget.rs).
 *
 * A window holds usage samples, each of which leaves the budget sixty seconds
 * after its own stamp, and reservations of requests in flight, which never
 * expire. The specification is written on values (`Window`); the class
 * `TokenWindow` at the end is the structure the proxy mutates.
 */
module TokenBudget {
  import opened Prelude

  const WINDOW_SECONDS: real := 60.0
  const RETRY_FLOOR: real := 0.001
  const RECHECK_SECONDS: real := 1.0

  datatype Limits = Limits(limit: u64, soft: u64, hard: u64)

  /** Limits as the configuration loader admits them. */
  type Policy = l: Limits | 0 < l.soft < l.hard <= l.limit <= 1_000_000_000 witness Limits(3, 1, 2)

  datatype BudgetEntry = BudgetEntry(id: string, provider: string, time: real, tokens: u64, estimated: bool)

  datatype Window = Window(entries: seq<BudgetEntry>, reservations: map<string, u64>)

  datatype BudgetStatus = BudgetStatus(
    limits: Limits, used: u64, reserved: u64, estimated: u64, total: u64,
    softReached: bool, hardReached: bool, retryAfter: real)

  const EMPTY: Window := Window([], map[])

  // ---------------------------------------------------------------------
  // What is in the window
  // ---------------------------------------------------------------------

  predicate IsLive(e: BudgetEntry, at: real) {
    e.time > at - WINDOW_SECONDS
  }

  function Live(entries: seq<BudgetEntry>, at: real): seq<BudgetEntry> {
    if entries == [] then []
    else
      var last := entries[|entries| - 1];
      Live(entries[..|entries| - 1], at) + if IsLive(last, at) then [last] else []
  }

  function Sum(entries: seq<BudgetEntry>): nat {
    if entries == [] then 0
    else Sum(entries[..|entries| - 1]) + entries[|entries| - 1].tokens
  }

  /** Tokens of the samples carrying one value of the `estimated` flag. */
  function Tally(entries: seq<BudgetEntry>, estimated: bool): nat {
    if entries == [] then 0
    else
      var last := entries[|entries| - 1];
      Tally(entries[..|entries| - 1], estimated) + if last.estimated == estimated then last.tokens else 0
  }

  ghost function ReservedSum(m: map<string, u64>): nat
    decreases |m|
  {
    if m == map[] then 0
    else
      var k :| k in m;
      m[k] + ReservedSum(m - {k})
  }

  /** Everything that counts against the hard limit at one moment, exactly. */
  ghost function Occupied(w: Window, at: real): nat {
    Sum(Live(w.entries, at)) + ReservedSum(w.reservations)
  }

  predicate Fits(policy: Policy, estimate: u64, total: u64) {
    total < policy.hard && SaturatingAdd(total, estimate) <= policy.hard
  }

  ghost predicate Admits(w: Window, policy: Policy, estimate: u64, at: real) {
    Fits(policy, estimate, Clamp(Occupied(w, at)))
  }

  // ---------------------------------------------------------------------
  // The delay until a request fits
  // ---------------------------------------------------------------------

  function InsertByTime(e: BudgetEntry, sorted: seq<BudgetEntry>): seq<BudgetEntry> {
    if sorted == [] then [e]
    else if sorted[|sorted| - 1].time <= e.time then sorted + [e]
    else InsertByTime(e, sorted[..|sorted| - 1]) + [sorted[|sorted| - 1]]
  }

  /** A stable sort by time stamp. */
  function SortByTime(entries: seq<BudgetEntry>): seq<BudgetEntry> {
    if entries == [] then []
    else InsertByTime(entries[|entries| - 1], SortByTime(entries[..|entries| - 1]))
  }

  /** The stamp of the first sample whose expiry makes the request fit. */
  function FirstFit(sorted: seq<BudgetEntry>, policy: Policy, estimate: u64, total: u64): Option<real> {
    if sorted == [] then None
    else
      var rest := SaturatingSub(total, sorted[0].tokens);
      if Fits(policy, estimate, rest) then Some(sorted[0].time)
      else FirstFit(sorted[1..], policy, estimate, rest)
  }

  function DelayFor(w: Window, policy: Policy, estimate: u64, at: real, total: u64): real {
    if Fits(policy, estimate, total) then 0.0
    else
      match FirstFit(SortByTime(Live(w.entries, at)), policy, estimate, total)
      case Some(time) =>
        var delay := Max(time + WINDOW_SECONDS - at, RETRY_FLOOR);
        if w.reservations == map[] then delay else Min(delay, RECHECK_SECONDS)
      case None => RECHECK_SECONDS
  }

  ghost function RetryAfter(w: Window, policy: Policy, estimate: u64, at: real): real {
    DelayFor(w, policy, estimate, at, Clamp(Occupied(w, at)))
  }

  ghost function StatusAt(w: Window, policy: Policy, at: real): BudgetStatus {
    var live := Live(w.entries, at);
    var total := Clamp(Occupied(w, at));
    BudgetStatus(policy, Clamp(Tally(live, false)), Clamp(ReservedSum(w.reservations)),
                 Clamp(Tally(live, true)), total,
                 total >= policy.soft, total >= policy.hard, RetryAfter(w, policy, 0, at))
  }

  // ---------------------------------------------------------------------
  // Operations on a window
  // ---------------------------------------------------------------------

  datatype Op =
    | Restore(entry: BudgetEntry)
    | Reserve(id: string, tokens: u64, at: real)
    | Finish(id: string, charge: Option<BudgetEntry>, at: real)

  function Kept(charge: Option<BudgetEntry>): seq<BudgetEntry> {
    if charge.Some? && charge.value.tokens > 0 then [charge.value] else []
  }

  /** One operation as the proxy performs it: expired samples are discarded. */
  function Apply(w: Window, op: Op): Window {
    match op
    case Restore(e) => w.(entries := w.entries + [e])
    case Reserve(id, tokens, at) =>
      Window(Live(w.entries, at), w.reservations[id := tokens])
    case Finish(id, charge, at) =>
      Window(Live(w.entries, at) + Kept(charge), w.reservations - {id})
  }

  /** The same operation on a log that never discards a sample. */
  function ApplyPlain(w: Window, op: Op): Window {
    match op
    case Restore(e) => w.(entries := w.entries + [e])
    case Reserve(id, tokens, at) => w.(reservations := w.reservations[id := tokens])
    case Finish(id, charge, at) => Window(w.entries + Kept(charge), w.reservations - {id})
  }

  function ApplyAll(w: Window, ops: seq<Op>): Window {
    if ops == [] then w else Apply(ApplyAll(w, ops[..|ops| - 1]), ops[|ops| - 1])
  }

  function ApplyAllPlain(w: Window, ops: seq<Op>): Window {
    if ops == [] then w else ApplyPlain(ApplyAllPlain(w, ops[..|ops| - 1]), ops[|ops| - 1])
  }

  predicate NotAfter(op: Op, at: real) {
    op.Restore? || op.at <= at
  }

  // ---------------------------------------------------------------------
  // Sums
  // ---------------------------------------------------------------------

  lemma {:induction false} SumConcat(a: seq<BudgetEntry>, b: seq<BudgetEntry>)
    ensures Sum(a + b) == Sum(a) + Sum(b)
    decreases |b|
  {
    if b == [] {
      assert a + b == a;
    } else {
      var init := b[..|b| - 1];
      assert (a + b)[..|a + b| - 1] == a + init;
      SumConcat(a, init);
    }
  }

  lemma {:induction false} TallySplits(entries: seq<BudgetEntry>)
    ensures Tally(entries, false) + Tally(entries, true) == Sum(entries)
  {
    if entries == [] {
    } else {
      TallySplits(entries[..|entries| - 1]);
    }
  }

  lemma {:induction false} ReservedSumRemove(m: map<string, u64>, k: string)
    requires k in m
    ensures ReservedSum(m) == m[k] + ReservedSum(m - {k})
    decreases |m|
  {
    var j :| j in m && ReservedSum(m) == m[j] + ReservedSum(m - {j});
    if j == k {
    } else {
      ReservedSumRemove(m - {j}, k);
      ReservedSumRemove(m - {k}, j);
      assert m - {j} - {k} == m - {k} - {j};
    }
  }

  lemma ReservedSumInsert(m: map<string, u64>, k: string, v: u64)
    requires k !in m
    ensures ReservedSum(m[k := v]) == v + ReservedSum(m)
  {
    ReservedSumRemove(m[k := v], k);
    assert m[k := v] - {k} == m;
  }

  // ---------------------------------------------------------------------
  // Time passing
  // ---------------------------------------------------------------------

  lemma LiveAppend(entries: seq<BudgetEntry>, e: BudgetEntry, at: real)
    ensures Live(entries + [e], at) == Live(entries, at) + if IsLive(e, at) then [e] else []
  {
    assert (entries + [e])[..|entries|] == entries;
  }

  lemma {:induction false} LiveConcat(a: seq<BudgetEntry>, b: seq<BudgetEntry>, at: real)
    ensures Live(a + b, at) == Live(a, at) + Live(b, at)
    decreases |b|
  {
    if b == [] {
      assert a + b == a;
    } else {
      var init := b[..|b| - 1];
      assert (a + b)[..|a + b| - 1] == a + init;
      LiveConcat(a, init, at);
    }
  }

  /** Discarding expired samples cannot be seen at any later moment. */
  lemma {:induction false} LiveOfLive(entries: seq<BudgetEntry>, earlier: real, later: real)
    requires earlier <= later
    ensures Live(Live(entries, earlier), later) == Live(entries, later)
  {
    if entries == [] {
    } else {
      var init, last := entries[..|entries| - 1], entries[|entries| - 1];
      LiveOfLive(init, earlier, later);
      if IsLive(last, earlier) {
        LiveAppend(Live(init, earlier), last, later);
      } else {
        assert Live(entries, earlier) == Live(init, earlier);
        assert Live(entries, later) == Live(init, later);
      }
    }
  }

  lemma {:induction false} LiveShrinks(entries: seq<BudgetEntry>, at: real)
    ensures Sum(Live(entries, at)) <= Sum(entries)
  {
    if entries == [] {
    } else {
      LiveShrinks(entries[..|entries| - 1], at);
      var init, last := entries[..|entries| - 1], entries[|entries| - 1];
      SumConcat(Live(init, at), if IsLive(last, at) then [last] else []);
    }
  }

  /** While nothing happens the occupied budget never rises. */
  lemma OccupiedNeverRises(w: Window, earlier: real, later: real)
    requires earlier <= later
    ensures Occupied(w, later) <= Occupied(w, earlier)
  {
    LiveOfLive(w.entries, earlier, later);
    LiveShrinks(Live(w.entries, earlier), later);
  }

  /** Once a request fits it keeps fitting while nothing happens. */
  lemma AdmissionPersists(w: Window, policy: Policy, estimate: u64, earlier: real, later: real)
    requires earlier <= later
    requires Admits(w, policy, estimate, earlier)
    ensures Admits(w, policy, estimate, later)
  {
    OccupiedNeverRises(w, earlier, later);
  }

  // ---------------------------------------------------------------------
  // Pruning refines the plain log
  // ---------------------------------------------------------------------

  lemma {:induction false} PrunedTracksPlain(ops: seq<Op>, at: real)
    requires forall i :: 0 <= i < |ops| ==> NotAfter(ops[i], at)
    ensures Live(ApplyAll(EMPTY, ops).entries, at) == Live(ApplyAllPlain(EMPTY, ops).entries, at)
    ensures ApplyAll(EMPTY, ops).reservations == ApplyAllPlain(EMPTY, ops).reservations
    decreases |ops|
  {
    if ops == [] {
    } else {
      var init, op := ops[..|ops| - 1], ops[|ops| - 1];
      PrunedTracksPlain(init, at);
      var pruned, plain := ApplyAll(EMPTY, init), ApplyAllPlain(EMPTY, init);
      match op
      case Restore(e) =>
        LiveAppend(pruned.entries, e, at);
        LiveAppend(plain.entries, e, at);
      case Reserve(_, _, then_) =>
        LiveOfLive(pruned.entries, then_, at);
      case Finish(_, charge, then_) =>
        LiveOfLive(pruned.entries, then_, at);
        LiveConcat(Live(pruned.entries, then_), Kept(charge), at);
        LiveConcat(plain.entries, Kept(charge), at);
    }
  }

  /**
   * Whatever was restored, reserved and finished so far, the pruned window
   * answers every question asked at or after the latest operation exactly as
   * a log that keeps everything.
   */
  lemma PruningIsUnobservable(ops: seq<Op>, policy: Policy, estimate: u64, at: real)
    requires forall i :: 0 <= i < |ops| ==> NotAfter(ops[i], at)
    ensures StatusAt(ApplyAll(EMPTY, ops), policy, at) == StatusAt(ApplyAllPlain(EMPTY, ops), policy, at)
    ensures Admits(ApplyAll(EMPTY, ops), policy, estimate, at)
              == Admits(ApplyAllPlain(EMPTY, ops), policy, estimate, at)
    ensures RetryAfter(ApplyAll(EMPTY, ops), policy, estimate, at)
              == RetryAfter(ApplyAllPlain(EMPTY, ops), policy, estimate, at)
  {
    PrunedTracksPlain(ops, at);
    AnswersReadLiveSamples(ApplyAll(EMPTY, ops), ApplyAllPlain(EMPTY, ops), policy, estimate, at);
  }

  lemma AnswersReadLiveSamples(a: Window, b: Window, policy: Policy, estimate: u64, at: real)
    requires Live(a.entries, at) == Live(b.entries, at) && a.reservations == b.reservations
    ensures StatusAt(a, policy, at) == StatusAt(b, policy, at)
    ensures Admits(a, policy, estimate, at) == Admits(b, policy, estimate, at)
    ensures RetryAfter(a, policy, estimate, at) == RetryAfter(b, policy, estimate, at)
  {
  }

  // ---------------------------------------------------------------------
  // What a status shows
  // ---------------------------------------------------------------------

  /** The tokens of the samples less than a minute old, reported or estimated ones. */
  ghost function Recent(entries: seq<BudgetEntry>, at: real, estimated: bool): nat {
    if entries == [] then 0
    else
      var e := entries[0];
      Recent(entries[1..], at, estimated)
      + if at - e.time < WINDOW_SECONDS && e.estimated == estimated then e.tokens else 0
  }

  lemma {:induction false} RecentSnoc(entries: seq<BudgetEntry>, last: BudgetEntry, at: real, estimated: bool)
    ensures Recent(entries + [last], at, estimated)
            == Recent(entries, at, estimated)
               + if at - last.time < WINDOW_SECONDS && last.estimated == estimated then last.tokens else 0
    decreases |entries|
  {
    if entries == [] {
      assert [last][1..] == [] && [] + [last] == [last];
    } else {
      RecentSnoc(entries[1..], last, at, estimated);
      assert (entries + [last])[1..] == entries[1..] + [last];
    }
  }

  lemma {:induction false} TallyIsRecent(entries: seq<BudgetEntry>, at: real, estimated: bool)
    ensures Tally(Live(entries, at), estimated) == Recent(entries, at, estimated)
    decreases |entries|
  {
    if entries == [] {
    } else {
      var init, last := entries[..|entries| - 1], entries[|entries| - 1];
      TallyIsRecent(init, at, estimated);
      assert entries == init + [last];
      RecentSnoc(init, last, at, estimated);
      assert (Live(init, at) + [last])[..|Live(init, at)|] == Live(init, at) == Live(init, at) + [];
    }
  }

  /** What counts against the limit: the samples less than a minute old and the reservations. */
  lemma OccupiedIsRecent(w: Window, at: real)
    ensures Occupied(w, at)
            == Recent(w.entries, at, false) + Recent(w.entries, at, true) + ReservedSum(w.reservations)
  {
    TallySplits(Live(w.entries, at));
    TallyIsRecent(w.entries, at, false);
    TallyIsRecent(w.entries, at, true);
  }

  /**
   * A status shows reported, estimated and reserved tokens of the last minute
   * apart and together, each cut off at 64 bits, which limits the total has
   * reached, and no delay exactly while it is below the hard limit.
   */
  lemma StatusIsExact(w: Window, policy: Policy, at: real)
    ensures var s := StatusAt(w, policy, at);
            var used, estimated := Recent(w.entries, at, false), Recent(w.entries, at, true);
            && s.limits == policy && s.used == Clamp(used) && s.estimated == Clamp(estimated)
            && s.reserved == Clamp(ReservedSum(w.reservations))
            && s.total == Clamp(used + estimated + ReservedSum(w.reservations))
            && (s.softReached <==> used + estimated + ReservedSum(w.reservations) >= policy.soft)
            && (s.hardReached <==> used + estimated + ReservedSum(w.reservations) >= policy.hard)
            && (s.retryAfter == 0.0 <==> !s.hardReached)
  {
    OccupiedIsRecent(w, at);
    TallyIsRecent(w.entries, at, false);
    TallyIsRecent(w.entries, at, true);
    DelayIsPositive(w, policy, 0, at, Clamp(Occupied(w, at)));
  }

  lemma DelayIsPositive(w: Window, policy: Policy, estimate: u64, at: real, total: u64)
    ensures DelayFor(w, policy, estimate, at, total) == 0.0 <==> total < policy.hard && total + estimate <= policy.hard
  {
  }

  // ---------------------------------------------------------------------
  // Exactness of the retry delay
  // ---------------------------------------------------------------------

  ghost predicate Sorted(entries: seq<BudgetEntry>) {
    forall i, j :: 0 <= i < j < |entries| ==> entries[i].time <= entries[j].time
  }

  lemma {:induction false} InsertKeepsOrder(e: BudgetEntry, sorted: seq<BudgetEntry>)
    requires Sorted(sorted)
    ensures Sorted(InsertByTime(e, sorted))
    ensures forall x :: x in InsertByTime(e, sorted) ==> x in sorted || x == e
  {
    if sorted == [] || sorted[|sorted| - 1].time <= e.time {
    } else {
      var init, last := sorted[..|sorted| - 1], sorted[|sorted| - 1];
      InsertKeepsOrder(e, init);
      forall x | x in InsertByTime(e, init) ensures x.time <= last.time {}
    }
  }

  lemma {:induction false} SortByTimeSorts(entries: seq<BudgetEntry>)
    ensures Sorted(SortByTime(entries))
    ensures forall x :: x in SortByTime(entries) ==> x in entries
  {
    if entries == [] {
    } else {
      var init := entries[..|entries| - 1];
      SortByTimeSorts(init);
      InsertKeepsOrder(entries[|entries| - 1], SortByTime(init));
    }
  }

  lemma {:induction false} LiveSumInsert(e: BudgetEntry, sorted: seq<BudgetEntry>, at: real)
    ensures Sum(Live(InsertByTime(e, sorted), at)) == Sum(Live(sorted, at)) + if IsLive(e, at) then e.tokens else 0
  {
    if sorted == [] || sorted[|sorted| - 1].time <= e.time {
      LiveAppend(sorted, e, at);
      assert InsertByTime(e, sorted) == sorted + [e];
      SumConcat(Live(sorted, at), if IsLive(e, at) then [e] else []);
    } else {
      var init, last := sorted[..|sorted| - 1], sorted[|sorted| - 1];
      var tail := if IsLive(last, at) then [last] else [];
      LiveSumInsert(e, init, at);
      LiveAppend(InsertByTime(e, init), last, at);
      SumConcat(Live(InsertByTime(e, init), at), tail);
      SumConcat(Live(init, at), tail);
    }
  }

  lemma {:induction false} LiveSumSort(entries: seq<BudgetEntry>, at: real)
    ensures Sum(Live(SortByTime(entries), at)) == Sum(Live(entries, at))
  {
    if entries == [] {
    } else {
      var init, last := entries[..|entries| - 1], entries[|entries| - 1];
      LiveSumSort(init, at);
      LiveSumInsert(last, SortByTime(init), at);
      SumConcat(Live(init, at), if IsLive(last, at) then [last] else []);
    }
  }

  lemma {:induction false} AllLive(entries: seq<BudgetEntry>, at: real)
    requires forall e :: e in entries ==> IsLive(e, at)
    ensures Live(entries, at) == entries
  {
    if entries == [] {
    } else {
      var init, last := entries[..|entries| - 1], entries[|entries| - 1];
      assert last in entries;
      AllLive(init, at);
      assert entries == init + [last];
    }
  }

  lemma {:induction false} LiveMembers(entries: seq<BudgetEntry>, at: real)
    ensures forall e :: e in Live(entries, at) <==> e in entries && IsLive(e, at)
  {
    if entries == [] {
    } else {
      LiveMembers(entries[..|entries| - 1], at);
      assert entries == entries[..|entries| - 1] + [entries[|entries| - 1]];
    }
  }

  /** What occupies the budget at `t` when `reserved` tokens never expire. */
  ghost function Left(samples: seq<BudgetEntry>, reserved: nat, t: real): nat {
    Sum(Live(samples, t)) + reserved
  }

  lemma SumByHead(entries: seq<BudgetEntry>)
    requires entries != []
    ensures Sum(entries) == entries[0].tokens + Sum(entries[1..])
  {
    assert entries == [entries[0]] + entries[1..];
    SumConcat([entries[0]], entries[1..]);
  }

  lemma LiveByHead(entries: seq<BudgetEntry>, t: real)
    requires entries != []
    ensures Live(entries, t) == (if IsLive(entries[0], t) then [entries[0]] else []) + Live(entries[1..], t)
  {
    assert entries == [entries[0]] + entries[1..];
    LiveConcat([entries[0]], entries[1..], t);
  }

  lemma LeftByHead(sorted: seq<BudgetEntry>, reserved: nat, t: real)
    requires sorted != [] && Sorted(sorted)
    ensures Left(sorted, reserved, t) ==
            if IsLive(sorted[0], t) then Sum(sorted) + reserved else Left(sorted[1..], reserved, t)
  {
    if IsLive(sorted[0], t) {
      AllLive(sorted, t);
    } else {
      LiveByHead(sorted, t);
      assert [] + Live(sorted[1..], t) == Live(sorted[1..], t);
    }
  }

  ghost predicate FitsLeft(samples: seq<BudgetEntry>, policy: Policy, estimate: u64, reserved: nat, t: real) {
    Fits(policy, estimate, Clamp(Left(samples, reserved, t)))
  }

  /** `found` names the expiry from which on requests fit. */
  ghost predicate Predicts(found: Option<real>, fits: bool, t: real) {
    fits <==> found.Some? && t >= found.value + WINDOW_SECONDS
  }

  /** Reading the sorted samples front to back finds the exact moment of fitting. */
  lemma {:induction false} FirstFitIsExact(
    sorted: seq<BudgetEntry>, policy: Policy, estimate: u64, reserved: nat, total: u64, t: real)
    requires Sorted(sorted) && total == Sum(sorted) + reserved
    requires !Fits(policy, estimate, total)
    ensures var found := FirstFit(sorted, policy, estimate, total);
            && Predicts(found, FitsLeft(sorted, policy, estimate, reserved, t), t)
            && (found.Some? ==> sorted != [] && found.value >= sorted[0].time)
            && (found.None? ==> !Fits(policy, estimate, reserved))
    decreases |sorted|
  {
    if sorted == [] {
    } else {
      var head, rest, remaining := sorted[0], sorted[1..], SaturatingSub(total, sorted[0].tokens);
      SumByHead(sorted);
      LeftByHead(sorted, reserved, t);
      assert remaining == Sum(rest) + reserved;
      if Fits(policy, estimate, remaining) {
        assert FirstFit(sorted, policy, estimate, total) == Some(head.time);
        LiveShrinks(rest, t);
        FitsBelow(policy, estimate, remaining, Left(rest, reserved, t));
      } else {
        assert FirstFit(sorted, policy, estimate, total) == FirstFit(rest, policy, estimate, remaining);
        FirstFitIsExact(rest, policy, estimate, reserved, remaining, t);
      }
    }
  }

  lemma FitsBelow(policy: Policy, estimate: u64, total: u64, less: nat)
    requires Fits(policy, estimate, total) && less <= total
    ensures Fits(policy, estimate, Clamp(less))
  {
  }

  /** The moment from which on a request fits, if nothing else happens. */
  ghost predicate FitsExactlyFrom(w: Window, policy: Policy, estimate: u64, at: real, moment: real) {
    forall t: real :: t >= at ==> (Admits(w, policy, estimate, t) <==> t >= moment)
  }

  /**
   * The advertised delay is exact while the sums fit in 64 bits: it is zero
   * just when the request fits now; otherwise it is the time to the first
   * moment it fits, up to the floor and, with requests in flight, the recheck
   * bound; and if no moment exists the answer is the recheck interval.
   */
  lemma RetryDelayIsExact(w: Window, policy: Policy, estimate: u64, at: real)
    requires Occupied(w, at) <= U64_MAX
    ensures RetryAfter(w, policy, estimate, at) == 0.0 <==> Admits(w, policy, estimate, at)
    ensures !Admits(w, policy, estimate, at) ==>
              var delay := RetryAfter(w, policy, estimate, at);
              || (exists moment: real :: moment > at && FitsExactlyFrom(w, policy, estimate, at, moment)
                                      && delay == if w.reservations == map[] then Max(moment - at, RETRY_FLOOR)
                                                  else Min(Max(moment - at, RETRY_FLOOR), RECHECK_SECONDS))
              || ((forall t: real :: t >= at ==> !Admits(w, policy, estimate, t))
                  && delay == RECHECK_SECONDS && (w.reservations != map[] || estimate > policy.hard))
  {
    if !Admits(w, policy, estimate, at) {
      var sorted, reserved := SortByTime(Live(w.entries, at)), ReservedSum(w.reservations);
      var found := FirstFit(sorted, policy, estimate, Clamp(Occupied(w, at)));
      forall t: real | t >= at
        ensures Predicts(found, Admits(w, policy, estimate, t), t)
        ensures found.None? ==> !Fits(policy, estimate, reserved)
      {
        SearchIsExact(w, policy, estimate, at, t);
      }
      if found.Some? {
        assert Predicts(found, Admits(w, policy, estimate, at), at);
        assert FitsExactlyFrom(w, policy, estimate, at, found.value + WINDOW_SECONDS);
      }
    }
  }

  /** What the search finds decides admission at every later moment. */
  lemma SearchIsExact(w: Window, policy: Policy, estimate: u64, at: real, t: real)
    requires Occupied(w, at) <= U64_MAX && !Admits(w, policy, estimate, at) && t >= at
    ensures var found := FirstFit(SortByTime(Live(w.entries, at)), policy, estimate, Occupied(w, at));
            && Predicts(found, Admits(w, policy, estimate, t), t)
            && (found.None? ==> !Fits(policy, estimate, ReservedSum(w.reservations)))
  {
    var sorted, reserved := SortByTime(Live(w.entries, at)), ReservedSum(w.reservations);
    SortedLive(w.entries, at, t);
    DecideBySamples(sorted, policy, estimate, reserved, Occupied(w, at), Occupied(w, t), t);
  }

  lemma DecideBySamples(sorted: seq<BudgetEntry>, policy: Policy, estimate: u64, reserved: nat, now: nat,
                        then_: nat, t: real)
    requires Sorted(sorted) && now == Sum(sorted) + reserved && then_ == Sum(Live(sorted, t)) + reserved
    requires now <= U64_MAX && !Fits(policy, estimate, now)
    ensures Predicts(FirstFit(sorted, policy, estimate, now), Fits(policy, estimate, Clamp(then_)), t)
    ensures FirstFit(sorted, policy, estimate, now).None? ==> !Fits(policy, estimate, reserved)
  {
    FirstFitIsExact(sorted, policy, estimate, reserved, now, t);
  }

  lemma SortedLive(entries: seq<BudgetEntry>, at: real, t: real)
    requires t >= at
    ensures var sorted := SortByTime(Live(entries, at));
            && Sorted(sorted)
            && Sum(sorted) == Sum(Live(entries, at))
            && Sum(Live(sorted, t)) == Sum(Live(entries, t))
  {
    var live := Live(entries, at);
    SortByTimeSorts(live);
    LiveMembers(entries, at);
    AllLive(live, at);
    AllLive(SortByTime(live), at);
    LiveSumSort(live, at);
    LiveSumSort(live, t);
    LiveOfLive(entries, at, t);
  }

  /** With nothing in flight, a request of at most the hard limit waits exactly as long as it must. */
  lemma RetryDelayWithoutReservations(w: Window, policy: Policy, estimate: u64, at: real)
    requires w.reservations == map[] && Occupied(w, at) <= U64_MAX && estimate <= policy.hard
    ensures var delay := RetryAfter(w, policy, estimate, at);
            && (forall t: real :: t >= at + delay ==> Admits(w, policy, estimate, t))
            && (delay > RETRY_FLOOR ==> forall t: real :: at <= t < at + delay ==> !Admits(w, policy, estimate, t))
  {
    RetryDelayIsExact(w, policy, estimate, at);
    if Admits(w, policy, estimate, at) {
      forall t: real | t >= at ensures Admits(w, policy, estimate, t) {
        AdmissionPersists(w, policy, estimate, at, t);
      }
    } else {
      var moment: real :| moment > at && FitsExactlyFrom(w, policy, estimate, at, moment)
        && RetryAfter(w, policy, estimate, at) == Max(moment - at, RETRY_FLOOR);
    }
  }

  /** An estimate above the hard limit fits at no time, whatever the window holds. */
  lemma OversizedNeverFits(w: Window, policy: Policy, estimate: u64, at: real)
    requires estimate > policy.hard
    ensures !Admits(w, policy, estimate, at)
    ensures RetryAfter(w, policy, estimate, at) == RECHECK_SECONDS
  {
    OversizedFirstFit(SortByTime(Live(w.entries, at)), policy, estimate, Clamp(Occupied(w, at)));
  }

  lemma {:induction false} OversizedFirstFit(sorted: seq<BudgetEntry>, policy: Policy, estimate: u64, total: u64)
    requires estimate > policy.hard
    ensures FirstFit(sorted, policy, estimate, total) == None
    decreases |sorted|
  {
    if sorted == [] {
    } else {
      OversizedFirstFit(sorted[1..], policy, estimate, SaturatingSub(total, sorted[0].tokens));
    }
  }

  // ---------------------------------------------------------------------
  // The structure the proxy mutates
  // ---------------------------------------------------------------------

  class TokenWindow {
    var entries: seq<BudgetEntry>
    var reservations: map<string, u64>

    ghost function Value(): Window
      reads this
    {
      Window(entries, reservations)
    }

    constructor ()
      ensures Value() == EMPTY
    {
      entries, reservations := [], map[];
    }

    method Restore(entry: BudgetEntry)
      modifies this
      ensures Value() == Apply(old(Value()), Op.Restore(entry))
    {
      entries := entries + [entry];
    }

    method Total(at: real) returns (used: u64, estimated: u64, reserved: u64, total: u64)
      ensures used == Clamp(Tally(Live(entries, at), false))
      ensures estimated == Clamp(Tally(Live(entries, at), true))
      ensures reserved == Clamp(ReservedSum(reservations))
      ensures total == Clamp(Occupied(Value(), at))
    {
      used, estimated := 0, 0;
      var live := Live(entries, at);
      for i := 0 to |live|
        invariant used == Clamp(Tally(live[..i], false))
        invariant estimated == Clamp(Tally(live[..i], true))
      {
        assert live[..i + 1][..i] == live[..i];
        if live[i].estimated {
          estimated := SaturatingAdd(estimated, live[i].tokens);
        } else {
          used := SaturatingAdd(used, live[i].tokens);
        }
      }
      assert live[..|live|] == live;
      TallySplits(live);
      reserved := ReservedTotal();
      total := SaturatingAdd(SaturatingAdd(used, estimated), reserved);
    }

    method ReservedTotal() returns (reserved: u64)
      ensures reserved == Clamp(ReservedSum(reservations))
    {
      reserved := 0;
      var keys := reservations.Keys;
      ghost var seen: map<string, u64> := map[];
      while keys != {}
        invariant keys <= reservations.Keys && seen == reservations - keys
        invariant reserved == Clamp(ReservedSum(seen))
        decreases |keys|
      {
        var k :| k in keys;
        ReservedSumInsert(seen, k, reservations[k]);
        keys := keys - {k};
        seen := seen[k := reservations[k]];
        reserved := SaturatingAdd(reserved, reservations[k]);
      }
      assert seen == reservations;
    }

    method Status(policy: Policy, at: real) returns (status: BudgetStatus)
      ensures status == StatusAt(Value(), policy, at)
    {
      var used, estimated, reserved, total := Total(at);
      var delay := Delay(policy, 0, at, total);
      status := BudgetStatus(policy, used, reserved, estimated, total,
                             total >= policy.soft, total >= policy.hard, delay);
    }

    method CanAdmit(policy: Policy, estimate: u64, at: real) returns (admitted: bool)
      ensures admitted <==> Admits(Value(), policy, estimate, at)
    {
      var _, _, _, total := Total(at);
      admitted := total < policy.hard && SaturatingAdd(total, estimate) <= policy.hard;
    }

    method RetryDelay(policy: Policy, estimate: u64, at: real) returns (delay: real)
      ensures delay == RetryAfter(Value(), policy, estimate, at)
    {
      var _, _, _, total := Total(at);
      delay := Delay(policy, estimate, at, total);
    }

    method Delay(policy: Policy, estimate: u64, at: real, start: u64) returns (delay: real)
      ensures delay == DelayFor(Value(), policy, estimate, at, start)
    {
      var total := start;
      if Fits(policy, estimate, total) {
        return 0.0;
      }
      var sorted := SortByTime(Live(entries, at));
      for i := 0 to |sorted|
        invariant FirstFit(sorted, policy, estimate, start) == FirstFit(sorted[i..], policy, estimate, total)
      {
        assert sorted[i..][1..] == sorted[i + 1..];
        total := SaturatingSub(total, sorted[i].tokens);
        if Fits(policy, estimate, total) {
          delay := Max(sorted[i].time + WINDOW_SECONDS - at, RETRY_FLOOR);
          return if reservations == map[] then delay else Min(delay, RECHECK_SECONDS);
        }
      }
      delay := RECHECK_SECONDS;
    }

    method Reserve(id: string, tokens: u64, at: real)
      modifies this
      ensures Value() == Apply(old(Value()), Op.Reserve(id, tokens, at))
    {
      entries := Live(entries, at);
      reservations := reservations[id := tokens];
    }

    method Finish(id: string, charge: Option<BudgetEntry>, at: real)
      modifies this
      ensures Value() == Apply(old(Value()), Op.Finish(id, charge, at))
    {
      reservations := reservations - {id};
      entries := Live(entries, at);
      if charge.Some? && charge.value.tokens > 0 {
        entries := entries + [charge.value];
      }
    }
  }
}
