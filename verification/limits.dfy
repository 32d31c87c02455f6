/** The request limits of the signal-strength helper (src/rssi_helper.rs). Times are milliseconds. */
module RequestLimits {
  import opened Collections

  type Time = nat

  const WINDOW := 1_000
  const REQUESTS := 16
  const TARGET_INTERVAL := 2_000
  const TARGETS := 64

  datatype Target = Target(index: nat, address: string)

  predicate Recent(t: Time, now: Time, interval: nat) {
    now < t + interval
  }

  /** Drops every arrival that has left the window. */
  function Retained(arrivals: seq<Time>, now: Time): seq<Time> {
    if arrivals == [] then []
    else
      var last := arrivals[|arrivals| - 1];
      Retained(arrivals[..|arrivals| - 1], now) + if Recent(last, now, WINDOW) then [last] else []
  }

  function RetainedTargets(targets: map<Target, Time>, now: Time): map<Target, Time> {
    map k | k in targets && Recent(targets[k], now, TARGET_INTERVAL) :: targets[k]
  }

  predicate Admits(arrivals: seq<Time>, now: Time) {
    |Retained(arrivals, now)| < REQUESTS
  }

  predicate AdmitsTarget(targets: map<Target, Time>, target: Target, now: Time) {
    var retained := RetainedTargets(targets, now);
    |retained| < TARGETS && target !in retained
  }

  class Limits {
    var arrivals: seq<Time>
    var targets: map<Target, Time>

    constructor ()
      ensures arrivals == [] && targets == map[]
    {
      arrivals, targets := [], map[];
    }

    method Retain(now: Time)
      modifies this
      ensures arrivals == Retained(old(arrivals), now) && targets == old(targets)
    {
      var kept := [];
      for i := 0 to |arrivals|
        invariant kept == Retained(arrivals[..i], now)
        invariant arrivals == old(arrivals) && targets == old(targets)
      {
        assert arrivals[..i + 1][..i] == arrivals[..i];
        if now < arrivals[i] + WINDOW {
          kept := kept + [arrivals[i]];
        } else {
          assert kept + [] == kept;
        }
      }
      assert arrivals[..|arrivals|] == arrivals;
      arrivals := kept;
    }

    method Admit(now: Time) returns (ok: bool)
      modifies this
      ensures ok == Admits(old(arrivals), now)
      ensures arrivals == Retained(old(arrivals), now) + if ok then [now] else []
      ensures targets == old(targets)
    {
      Retain(now);
      if |arrivals| >= REQUESTS {
        assert arrivals + [] == arrivals;
        return false;
      }
      arrivals := arrivals + [now];
      ok := true;
    }

    method AdmitTarget(target: Target, now: Time) returns (ok: bool)
      modifies this
      ensures ok == AdmitsTarget(old(targets), target, now)
      ensures var retained := RetainedTargets(old(targets), now);
              targets == if ok then retained[target := now] else retained
      ensures arrivals == old(arrivals)
    {
      targets := RetainedTargets(targets, now);
      if |targets| >= TARGETS || target in targets {
        return false;
      }
      targets := targets[target := now];
      ok := true;
    }
  }

  // ---------------------------------------------------------------- requests

  /** The arrivals kept, every time a request was admitted, and the clock. */
  datatype Requests = Requests(arrivals: seq<Time>, log: seq<Time>, now: Time)

  function AfterRequest(s: Requests, at: Time): Requests {
    if at < s.now then s
    else
      var more := if Admits(s.arrivals, at) then [at] else [];
      Requests(Retained(s.arrivals, at) + more, s.log + more, at)
  }

  function RunRequests(times: seq<Time>): Requests {
    if times == [] then Requests([], [], 0)
    else AfterRequest(RunRequests(times[..|times| - 1]), times[|times| - 1])
  }

  ghost predicate Ascending(s: seq<Time>) {
    forall i, j :: 0 <= i < j < |s| ==> s[i] <= s[j]
  }

  /** `arrivals` is the end of the log, and everything before it has left the window. */
  ghost predicate TailOf(arrivals: seq<Time>, log: seq<Time>, now: Time) {
    && |arrivals| <= |log|
    && arrivals == log[|log| - |arrivals|..]
    && forall i :: 0 <= i < |log| - |arrivals| ==> !Recent(log[i], now, WINDOW)
  }

  /** Any `limit + 1` consecutive times span at least the interval. */
  ghost predicate Spread(log: seq<Time>, limit: nat, interval: nat) {
    forall i, j :: 0 <= i && j == i + limit && j < |log| ==> log[i] + interval <= log[j]
  }

  ghost predicate RequestsGood(s: Requests) {
    && Ascending(s.log)
    && (forall t <- s.log :: t <= s.now)
    && TailOf(s.arrivals, s.log, s.now)
    && Spread(s.log, REQUESTS, WINDOW)
  }

  /** Once one arrival has left the window, so have all before it. */
  lemma NoneLeft(arrivals: seq<Time>, now: Time)
    requires Ascending(arrivals) && arrivals != [] && !Recent(arrivals[|arrivals| - 1], now, WINDOW)
    ensures TailOf([], arrivals, now) && Retained(arrivals[..|arrivals| - 1], now) == []
  {
    NoneRetained(arrivals[..|arrivals| - 1], now);
  }

  lemma {:induction false} NoneRetained(arrivals: seq<Time>, now: Time)
    requires forall t <- arrivals :: !Recent(t, now, WINDOW)
    ensures Retained(arrivals, now) == []
  {
    if arrivals != [] {
      NoneRetained(arrivals[..|arrivals| - 1], now);
    }
  }

  lemma AllRecentAppend(kept: seq<Time>, at: Time, now: Time)
    requires (forall t <- kept :: Recent(t, now, WINDOW)) && Recent(at, now, WINDOW)
    ensures forall t <- kept + [at] :: Recent(t, now, WINDOW)
  {
  }

  /** Retaining drops a prefix. */
  lemma {:induction false} RetainedIsTail(arrivals: seq<Time>, now: Time)
    requires Ascending(arrivals)
    ensures TailOf(Retained(arrivals, now), arrivals, now)
    ensures forall t <- Retained(arrivals, now) :: Recent(t, now, WINDOW)
  {
    if arrivals != [] {
      var n := |arrivals| - 1;
      if Recent(arrivals[n], now, WINDOW) {
        RetainedIsTail(arrivals[..n], now);
        assert arrivals == arrivals[..n] + [arrivals[n]];
        TailAppend(Retained(arrivals[..n], now), arrivals[..n], arrivals[n], now);
        AllRecentAppend(Retained(arrivals[..n], now), arrivals[n], now);
      } else {
        NoneLeft(arrivals, now);
      }
    }
  }

  lemma TailAppend(kept: seq<Time>, log: seq<Time>, last: Time, now: Time)
    requires TailOf(kept, log, now)
    ensures TailOf(kept + [last], log + [last], now)
  {
  }

  lemma TailOfTail(a: seq<Time>, b: seq<Time>, c: seq<Time>, before: Time, now: Time)
    requires TailOf(a, b, now) && TailOf(b, c, before) && before <= now
    ensures TailOf(a, c, now)
  {
    assert a == c[|c| - |b|..][|b| - |a|..];
    forall i | 0 <= i < |c| - |a| ensures !Recent(c[i], now, WINDOW) {
      if i >= |c| - |b| {
        assert c[i] == b[i - (|c| - |b|)];
      }
    }
  }

  lemma AscendingAppend(log: seq<Time>, at: Time)
    requires Ascending(log) && forall t <- log :: t <= at
    ensures Ascending(log + [at])
    ensures forall t <- log + [at] :: t <= at
  {
    assert forall i :: 0 <= i < |log| ==> log[i] in log;
  }

  lemma SpreadAppend(log: seq<Time>, at: Time, limit: nat, interval: nat)
    requires Spread(log, limit, interval) && limit > 0
    requires limit <= |log| ==> log[|log| - limit] + interval <= at
    ensures Spread(log + [at], limit, interval)
  {
  }

  /** The sixteenth last admission has left the window when another one is admitted. */
  lemma SpreadKept(kept: seq<Time>, log: seq<Time>, at: Time)
    requires Spread(log, REQUESTS, WINDOW) && TailOf(kept, log, at) && |kept| < REQUESTS
    ensures Spread(log + [at], REQUESTS, WINDOW)
  {
    if |log| >= REQUESTS {
      assert !Recent(log[|log| - REQUESTS], at, WINDOW);
    }
    SpreadAppend(log, at, REQUESTS, WINDOW);
  }

  lemma AdmissionKeeps(s: Requests, kept: seq<Time>, at: Time)
    requires RequestsGood(s) && at >= s.now && TailOf(kept, s.log, at) && |kept| < REQUESTS
    ensures RequestsGood(Requests(kept + [at], s.log + [at], at))
  {
    AscendingAppend(s.log, at);
    TailAppend(kept, s.log, at, at);
    SpreadKept(kept, s.log, at);
  }

  lemma RetainedKeeps(s: Requests, at: Time)
    requires RequestsGood(s) && at >= s.now
    ensures TailOf(Retained(s.arrivals, at), s.log, at)
    ensures forall t <- Retained(s.arrivals, at) :: Recent(t, at, WINDOW)
  {
    ArrivalsAscending(s.arrivals, s.log);
    RetainedIsTail(s.arrivals, at);
    TailOfTail(Retained(s.arrivals, at), s.arrivals, s.log, s.now, at);
  }

  lemma RequestKeeps(s: Requests, at: Time)
    requires RequestsGood(s)
    ensures RequestsGood(AfterRequest(s, at))
  {
    if at >= s.now {
      var kept := Retained(s.arrivals, at);
      RetainedKeeps(s, at);
      if Admits(s.arrivals, at) {
        AdmissionKeeps(s, kept, at);
      } else {
        assert kept + [] == kept && s.log + [] == s.log;
      }
    }
  }

  lemma ArrivalsAscending(arrivals: seq<Time>, log: seq<Time>)
    requires Ascending(log) && |arrivals| <= |log| && arrivals == log[|log| - |arrivals|..]
    ensures Ascending(arrivals)
  {
  }

  lemma {:induction false} RequestsAreGood(times: seq<Time>)
    ensures RequestsGood(RunRequests(times))
  {
    if times != [] {
      RequestsAreGood(times[..|times| - 1]);
      RequestKeeps(RunRequests(times[..|times| - 1]), times[|times| - 1]);
    }
  }

  /** How many times lie in `[from, to)`. */
  function CountIn(log: seq<Time>, from: int, to: int): nat {
    if log == [] then 0
    else CountIn(log[..|log| - 1], from, to) + if from <= log[|log| - 1] < to then 1 else 0
  }

  /** In an ascending log, the times of an interval stand together. */
  lemma {:induction false} CountIsRange(log: seq<Time>, from: int, to: int) returns (first: nat)
    requires Ascending(log)
    ensures first + CountIn(log, from, to) <= |log|
    ensures forall i :: first <= i < first + CountIn(log, from, to) ==> from <= log[i] < to
    ensures forall i :: 0 <= i < |log| && from <= log[i] < to ==> first <= i < first + CountIn(log, from, to)
  {
    if log == [] {
      first := 0;
    } else {
      var n := |log| - 1;
      var count := CountIn(log[..n], from, to);
      first := CountIsRange(log[..n], from, to);
      if from <= log[n] < to {
        if count == 0 {
          first := n;
        } else {
          forall i | first <= i < n && log[i] <= log[n] ensures i < first + count {
            assert log[first] <= log[i] <= log[n];
            assert from <= log[..n][first] && from <= log[..n][i] < to;
          }
        }
      }
      assert forall i :: 0 <= i < n ==> log[..n][i] == log[i];
    }
  }

  lemma SpreadBoundsCount(log: seq<Time>, limit: nat, interval: nat, from: int)
    requires Ascending(log) && Spread(log, limit, interval)
    ensures CountIn(log, from, from + interval) <= limit
  {
    var first := CountIsRange(log, from, from + interval);
    if first + limit < |log| {
      assert log[first] + interval <= log[first + limit];
    }
  }

  /** Every half-open second holds at most sixteen admitted requests. */
  lemma RequestRateBounded(times: seq<Time>, from: int)
    ensures CountIn(RunRequests(times).log, from, from + WINDOW) <= REQUESTS
  {
    RequestsAreGood(times);
    SpreadBoundsCount(RunRequests(times).log, REQUESTS, WINDOW, from);
  }

  /** A request is refused only if sixteen were admitted in the second before it. */
  lemma RefusedOnlyAtTheLimit(times: seq<Time>, at: Time)
    requires at >= RunRequests(times).now
    ensures Admits(RunRequests(times).arrivals, at)
       <==> CountIn(RunRequests(times).log, at - WINDOW + 1, at + 1) < REQUESTS
  {
    var s := RunRequests(times);
    RequestsAreGood(times);
    RetainedKeeps(s, at);
    CountOfTail(Retained(s.arrivals, at), s.log, at);
  }

  lemma CountOfTail(kept: seq<Time>, log: seq<Time>, at: Time)
    requires Ascending(log) && TailOf(kept, log, at)
    requires (forall t <- kept :: Recent(t, at, WINDOW)) && forall t <- log :: t <= at
    ensures CountIn(log, at - WINDOW + 1, at + 1) == |kept|
  {
    var from, to := at - WINDOW + 1, at + 1;
    var first := CountIsRange(log, from, to);
    var start := |log| - |kept|;
    forall i | start <= i < |log| ensures from <= log[i] < to {
      assert log[i] == kept[i - start];
      assert log[i] in log && log[i] in kept;
    }
    forall i | 0 <= i < start ensures !(from <= log[i] < to) {
      assert !Recent(log[i], at, WINDOW);
    }
    var count := CountIn(log, from, to);
    assert count > 0 ==> from <= log[first] < to;
    assert start < |log| ==> from <= log[start] < to && from <= log[|log| - 1] < to;
  }

  // ---------------------------------------------------------------- targets

  datatype Admission = Admission(target: Target, at: Time)

  /** The targets kept, every admission, and the clock. */
  datatype Visits = Visits(targets: map<Target, Time>, log: seq<Admission>, now: Time)

  function AfterVisit(s: Visits, target: Target, at: Time): Visits {
    if at < s.now then s
    else
      var retained := RetainedTargets(s.targets, at);
      if AdmitsTarget(s.targets, target, at)
      then Visits(retained[target := at], s.log + [Admission(target, at)], at)
      else Visits(retained, s.log, at)
  }

  function RunVisits(visits: seq<Admission>): Visits {
    if visits == [] then Visits(map[], [], 0)
    else
      var last := visits[|visits| - 1];
      AfterVisit(RunVisits(visits[..|visits| - 1]), last.target, last.at)
  }

  function TimesOf(log: seq<Admission>): (times: seq<Time>)
    ensures |times| == |log|
  {
    seq(|log|, i requires 0 <= i < |log| => log[i].at)
  }

  ghost predicate Apart(log: seq<Admission>) {
    forall i, j :: 0 <= i < j < |log| && log[i].target == log[j].target ==> log[i].at + TARGET_INTERVAL <= log[j].at
  }

  /** The table holds admissions of the log, and all the recent ones. */
  ghost predicate TableGood(s: Visits) {
    && (forall a <- s.log :: a.at <= s.now)
    && (forall a <- s.log :: Recent(a.at, s.now, TARGET_INTERVAL) ==>
          a.target in s.targets && s.targets[a.target] == a.at)
    && (forall k <- s.targets :: Admission(k, s.targets[k]) in s.log)
  }

  ghost predicate VisitsGood(s: Visits) {
    && Ascending(TimesOf(s.log))
    && TableGood(s)
    && Apart(s.log)
    && Spread(TimesOf(s.log), TARGETS, TARGET_INTERVAL)
  }

  function TargetsOf(log: seq<Admission>): set<Target> {
    set a | a in log :: a.target
  }

  lemma {:induction false} DistinctTargetsCount(log: seq<Admission>)
    requires forall i, j :: 0 <= i < j < |log| ==> log[i].target != log[j].target
    ensures |TargetsOf(log)| == |log|
  {
    if log != [] {
      var n := |log| - 1;
      DistinctTargetsCount(log[..n]);
      assert log == log[..n] + [log[n]];
      assert TargetsOf(log) == TargetsOf(log[..n]) + {log[n].target};
    }
  }

  /** If the last `n` admissions are all recent, their targets are distinct and all kept. */
  lemma RecentAreKept(s: Visits, at: Time, n: nat)
    requires VisitsGood(s) && at >= s.now && n <= |s.log|
    requires forall i :: |s.log| - n <= i < |s.log| ==> Recent(s.log[i].at, at, TARGET_INTERVAL)
    ensures |RetainedTargets(s.targets, at)| >= n
  {
    var tail := s.log[|s.log| - n..];
    var retained := RetainedTargets(s.targets, at);
    DistinctTargetsCount(tail);
    forall a | a in tail ensures a.target in retained {
      assert a in s.log;
    }
    assert TargetsOf(tail) <= retained.Keys;
    SubsetSize(TargetsOf(tail), retained.Keys);
    assert |retained.Keys| == |retained|;
  }

  /** The sixty-fourth admission from the end has left the interval if a target is admitted. */
  lemma LeftBySixtyFourth(s: Visits, target: Target, at: Time)
    requires VisitsGood(s) && at >= s.now && AdmitsTarget(s.targets, target, at) && |s.log| >= TARGETS
    ensures !Recent(s.log[|s.log| - TARGETS].at, at, TARGET_INTERVAL)
  {
    var first := |s.log| - TARGETS;
    if Recent(s.log[first].at, at, TARGET_INTERVAL) {
      forall i | first <= i < |s.log| ensures Recent(s.log[i].at, at, TARGET_INTERVAL) {
        assert TimesOf(s.log)[first] <= TimesOf(s.log)[i];
      }
      RecentAreKept(s, at, TARGETS);
    }
  }

  lemma VisitKeepsSpread(s: Visits, target: Target, at: Time)
    requires VisitsGood(s) && at >= s.now && AdmitsTarget(s.targets, target, at)
    ensures Spread(TimesOf(s.log + [Admission(target, at)]), TARGETS, TARGET_INTERVAL)
  {
    if |s.log| >= TARGETS {
      LeftBySixtyFourth(s, target, at);
    }
    SpreadAppend(TimesOf(s.log), at, TARGETS, TARGET_INTERVAL);
    assert TimesOf(s.log + [Admission(target, at)]) == TimesOf(s.log) + [at];
  }

  lemma VisitKeepsApart(s: Visits, target: Target, at: Time)
    requires VisitsGood(s) && at >= s.now && AdmitsTarget(s.targets, target, at)
    ensures Apart(s.log + [Admission(target, at)])
  {
    forall i | 0 <= i < |s.log| && s.log[i].target == target ensures s.log[i].at + TARGET_INTERVAL <= at {
      assert s.log[i] in s.log;
    }
  }

  lemma TimesAscend(s: Visits, target: Target, at: Time)
    requires VisitsGood(s) && at >= s.now
    ensures Ascending(TimesOf(s.log + [Admission(target, at)]))
  {
    assert TimesOf(s.log + [Admission(target, at)]) == TimesOf(s.log) + [at];
    forall i | 0 <= i < |s.log| ensures s.log[i].at <= at {
      assert s.log[i] in s.log;
    }
    AscendingAppend(TimesOf(s.log), at);
  }

  lemma VisitKeepsTable(s: Visits, target: Target, at: Time)
    requires TableGood(s) && at >= s.now && AdmitsTarget(s.targets, target, at)
    ensures TableGood(AfterVisit(s, target, at))
  {
  }

  lemma AdmittedKeeps(s: Visits, target: Target, at: Time)
    requires VisitsGood(s) && at >= s.now && AdmitsTarget(s.targets, target, at)
    ensures VisitsGood(AfterVisit(s, target, at))
  {
    VisitKeepsSpread(s, target, at);
    VisitKeepsApart(s, target, at);
    TimesAscend(s, target, at);
    VisitKeepsTable(s, target, at);
  }

  lemma VisitKeeps(s: Visits, target: Target, at: Time)
    requires VisitsGood(s)
    ensures VisitsGood(AfterVisit(s, target, at))
  {
    if at >= s.now && AdmitsTarget(s.targets, target, at) {
      AdmittedKeeps(s, target, at);
    }
  }

  lemma {:induction false} VisitsAreGood(visits: seq<Admission>)
    ensures VisitsGood(RunVisits(visits))
  {
    if visits != [] {
      VisitsAreGood(visits[..|visits| - 1]);
      var last := visits[|visits| - 1];
      VisitKeeps(RunVisits(visits[..|visits| - 1]), last.target, last.at);
    }
  }

  /** Two admissions of the same target are at least two seconds apart. */
  lemma SameTargetApart(visits: seq<Admission>, i: nat, j: nat)
    requires i < j < |RunVisits(visits).log|
    requires RunVisits(visits).log[i].target == RunVisits(visits).log[j].target
    ensures RunVisits(visits).log[i].at + TARGET_INTERVAL <= RunVisits(visits).log[j].at
  {
    VisitsAreGood(visits);
  }

  /** Every half-open interval of two seconds holds at most sixty-four target admissions. */
  lemma TargetRateBounded(visits: seq<Admission>, from: int)
    ensures CountIn(TimesOf(RunVisits(visits).log), from, from + TARGET_INTERVAL) <= TARGETS
  {
    VisitsAreGood(visits);
    SpreadBoundsCount(TimesOf(RunVisits(visits).log), TARGETS, TARGET_INTERVAL, from);
  }

  ghost predicate AllDistinct(log: seq<Admission>) {
    forall i, j :: 0 <= i < j < |log| ==> log[i].target != log[j].target
  }

  /** Admissions that are all recent are of distinct targets. */
  lemma RecentAreDistinct(log: seq<Admission>, at: Time)
    requires Apart(log)
    requires forall a <- log :: a.at <= at && Recent(a.at, at, TARGET_INTERVAL)
    ensures AllDistinct(log)
  {
    forall i, j | 0 <= i < j < |log| ensures log[i].target != log[j].target {
      assert log[i] in log && log[j] in log;
    }
  }

  lemma ApartSlice(log: seq<Admission>, first: nat, count: nat)
    requires Apart(log) && first + count <= |log|
    ensures Apart(log[first..first + count])
  {
  }

  lemma RecentIsInRange(s: Visits, i: nat, at: Time)
    requires VisitsGood(s) && at >= s.now && i < |s.log|
    ensures Recent(s.log[i].at, at, TARGET_INTERVAL) <==> at - TARGET_INTERVAL + 1 <= TimesOf(s.log)[i] < at + 1
  {
    assert s.log[i] in s.log;
  }

  /** The recent admissions stand together in the log, from `first` on. */
  predicate RecentFrom(log: seq<Admission>, at: Time, first: nat, count: nat) {
    && first + count <= |log|
    && forall i :: 0 <= i < |log| ==> (Recent(log[i].at, at, TARGET_INTERVAL) <==> first <= i < first + count)
  }

  lemma RecentTogether(s: Visits, at: Time) returns (first: nat)
    requires VisitsGood(s) && at >= s.now
    ensures RecentFrom(s.log, at, first, CountIn(TimesOf(s.log), at - TARGET_INTERVAL + 1, at + 1))
  {
    first := CountIsRange(TimesOf(s.log), at - TARGET_INTERVAL + 1, at + 1);
    forall i | 0 <= i < |s.log|
      ensures Recent(s.log[i].at, at, TARGET_INTERVAL) <==> at - TARGET_INTERVAL + 1 <= TimesOf(s.log)[i] < at + 1
    {
      RecentIsInRange(s, i, at);
    }
  }

  lemma SliceIsRecent(log: seq<Admission>, at: Time, first: nat, count: nat, a: Admission)
    requires RecentFrom(log, at, first, count)
    ensures a in log[first..first + count] <==> a in log && Recent(a.at, at, TARGET_INTERVAL)
  {
    var tail := log[first..first + count];
    if a in log && Recent(a.at, at, TARGET_INTERVAL) {
      var i: nat :| i < |log| && log[i] == a;
      assert tail[i - first] == a;
    }
  }

  /** The recent admissions. */
  lemma RecentRange(s: Visits, at: Time) returns (tail: seq<Admission>)
    requires VisitsGood(s) && at >= s.now
    ensures |tail| == CountIn(TimesOf(s.log), at - TARGET_INTERVAL + 1, at + 1)
    ensures forall a :: a in tail <==> a in s.log && Recent(a.at, at, TARGET_INTERVAL)
    ensures Apart(tail)
  {
    var count := CountIn(TimesOf(s.log), at - TARGET_INTERVAL + 1, at + 1);
    var first := RecentTogether(s, at);
    tail := s.log[first..first + count];
    ApartSlice(s.log, first, count);
    forall a ensures a in tail <==> a in s.log && Recent(a.at, at, TARGET_INTERVAL) {
      SliceIsRecent(s.log, at, first, count, a);
    }
  }

  /** The target was admitted within the last two seconds. */
  predicate Visited(log: seq<Admission>, target: Target, at: Time) {
    exists a <- log :: a.target == target && Recent(a.at, at, TARGET_INTERVAL)
  }

  /** The targets kept are those admitted within the last two seconds, each once. */
  lemma RetainedAreRecent(s: Visits, at: Time)
    requires VisitsGood(s) && at >= s.now
    ensures |RetainedTargets(s.targets, at)| == CountIn(TimesOf(s.log), at - TARGET_INTERVAL + 1, at + 1)
    ensures forall k :: k in RetainedTargets(s.targets, at) <==> Visited(s.log, k, at)
  {
    var tail := RecentRange(s, at);
    var retained := RetainedTargets(s.targets, at);
    forall k | k in retained ensures k in TargetsOf(tail) {
      assert Admission(k, s.targets[k]) in tail;
    }
    assert TargetsOf(tail) == retained.Keys;
    RecentAreDistinct(tail, at);
    DistinctTargetsCount(tail);
    assert |retained.Keys| == |retained|;
  }

  /** A target is refused exactly if it, or sixty-four targets, were admitted within the last two seconds. */
  lemma TargetRefusedIff(visits: seq<Admission>, target: Target, at: Time)
    requires at >= RunVisits(visits).now
    ensures var s := RunVisits(visits);
            !AdmitsTarget(s.targets, target, at) <==>
            || Visited(s.log, target, at)
            || CountIn(TimesOf(s.log), at - TARGET_INTERVAL + 1, at + 1) >= TARGETS
  {
    VisitsAreGood(visits);
    RetainedAreRecent(RunVisits(visits), at);
  }
}
