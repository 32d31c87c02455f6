/** The retry policy of the Fast Pair message stream (src/fast_pair/retry.rs). Times are milliseconds. */
module FastPairRetry {
  import opened Wrappers
  import opened Pacing

  type Peer = string

  const BUSY_RETRY_MS: seq<nat> := [250, 500, 1000, 1000, 1000, 1000]
  const U8_MAX := 0xff
  const U32_MAX := 0xffff_ffff

  datatype PeerRetry = PeerRetry(failures: nat, busyAttempts: nat, after: Option<Time>, unknownPsm: nat,
                                 unavailablePsm: bool)

  const FRESH := PeerRetry(0, 0, None, 0, false)

  type Peers = map<Peer, PeerRetry>

  function Of(peers: Peers, p: Peer): PeerRetry {
    if p in peers then peers[p] else FRESH
  }

  function Doubled(n: nat): nat {
    if n == 0 then 15 else 2 * Doubled(n - 1)
  }

  /** The back-off in seconds, before jitter. */
  function Seconds(failures: nat): nat {
    var seconds := Doubled(if failures < 5 then failures else 5);
    if seconds < 300 then seconds else 300
  }

  /** `random` is the byte drawn for the jitter. */
  function Delay(failures: nat, random: nat): nat {
    1000 * (Seconds(failures) + random % (Seconds(failures) / 5 + 1))
  }

  function Failed(r: PeerRetry, now: Time, random: nat): PeerRetry {
    r.(failures := if r.failures < U32_MAX then r.failures + 1 else r.failures,
       after := Some(now + Delay(r.failures, random)))
  }

  function ConnectionFailed(r: PeerRetry, busy: bool, now: Time, random: nat): PeerRetry {
    if busy && r.busyAttempts < |BUSY_RETRY_MS|
    then r.(busyAttempts := r.busyAttempts + 1, after := Some(now + BUSY_RETRY_MS[r.busyAttempts]))
    else Failed(r, now, random)
  }

  function PsmUnknown(r: PeerRetry): PeerRetry {
    var unknown := if r.unknownPsm < U8_MAX then r.unknownPsm + 1 else r.unknownPsm;
    r.(unknownPsm := unknown, unavailablePsm := r.unavailablePsm || unknown >= 3)
  }

  predicate Ready(peers: Peers, p: Peer, now: Time) {
    Of(peers, p).after.Some? ==> Of(peers, p).after.value <= now
  }

  function Cleared(r: PeerRetry, now: Time): PeerRetry {
    if r.after.Some? && r.after.value <= now then r.(after := None) else r
  }

  function ClearDue(peers: Peers, now: Time): Peers {
    map p | p in peers :: Cleared(peers[p], now)
  }

  class RetryPolicy {
    var peers: Peers

    constructor ()
      ensures peers == map[]
    {
      peers := map[];
    }

    method IsReady(p: Peer, now: Time) returns (ready: bool)
      ensures ready <==> Ready(peers, p, now)
    {
      ready := p !in peers || peers[p].after.None? || peers[p].after.value <= now;
    }

    /** The earliest deadline of any peer. */
    method NextDeadline() returns (deadline: Option<Time>)
      ensures deadline.None? ==> forall p <- peers :: peers[p].after.None?
      ensures deadline.Some? ==> exists p <- peers :: peers[p].after == deadline
      ensures deadline.Some? ==> forall p <- peers :: peers[p].after.Some? ==> deadline.value <= peers[p].after.value
    {
      deadline := None;
      var rest := peers.Keys;
      while rest != {}
        invariant rest <= peers.Keys
        invariant deadline.None? ==> forall p <- peers.Keys - rest :: peers[p].after.None?
        invariant deadline.Some? ==> exists p <- peers :: peers[p].after == deadline
        invariant deadline.Some? ==>
            forall p <- peers.Keys - rest :: peers[p].after.Some? ==> deadline.value <= peers[p].after.value
        decreases |rest|
      {
        var p :| p in rest;
        rest := rest - {p};
        var after := peers[p].after;
        if after.Some? && (deadline.None? || after.value < deadline.value) {
          deadline := after;
        }
      }
    }

    method ClearDueDeadlines(now: Time)
      modifies this
      ensures peers == ClearDue(old(peers), now)
    {
      var rest := peers.Keys;
      while rest != {}
        invariant rest <= peers.Keys == old(peers).Keys
        invariant forall p <- peers :: peers[p] == if p in rest then old(peers)[p] else Cleared(old(peers)[p], now)
        decreases |rest|
      {
        var p :| p in rest;
        rest := rest - {p};
        if peers[p].after.Some? && peers[p].after.value <= now {
          peers := peers[p := peers[p].(after := None)];
        }
      }
    }

    method NoteConnectionFailed(p: Peer, busy: bool, now: Time, random: nat)
      modifies this
      ensures peers == old(peers)[p := ConnectionFailed(Of(old(peers), p), busy, now, random)]
    {
      var r := Of(peers, p);
      if busy && r.busyAttempts < |BUSY_RETRY_MS| {
        peers := peers[p := r.(busyAttempts := r.busyAttempts + 1, after := Some(now + BUSY_RETRY_MS[r.busyAttempts]))];
      } else {
        NoteFailed(p, now, random);
      }
    }

    method NoteFailed(p: Peer, now: Time, random: nat)
      modifies this
      ensures peers == old(peers)[p := Failed(Of(old(peers), p), now, random)]
    {
      var r := Of(peers, p);
      var seconds := Seconds(r.failures);
      var jitter := random % (seconds / 5 + 1);
      r := r.(failures := if r.failures < U32_MAX then r.failures + 1 else r.failures);
      r := r.(after := Some(now + 1000 * (seconds + jitter)));
      peers := peers[p := r];
    }

    method NoteConnected(p: Peer)
      modifies this
      ensures peers == if p in old(peers) then old(peers)[p := old(peers)[p].(after := None)] else old(peers)
    {
      if p in peers {
        peers := peers[p := peers[p].(after := None)];
      }
    }

    method NotePsmUnknown(p: Peer)
      modifies this
      ensures peers == old(peers)[p := PsmUnknown(Of(old(peers), p))]
    {
      var r := Of(peers, p);
      r := r.(unknownPsm := if r.unknownPsm < U8_MAX then r.unknownPsm + 1 else r.unknownPsm);
      r := r.(unavailablePsm := r.unavailablePsm || r.unknownPsm >= 3);
      peers := peers[p := r];
    }

    method NotePsmUnavailable(p: Peer)
      modifies this
      ensures peers == old(peers)[p := Of(old(peers), p).(unavailablePsm := true)]
    {
      peers := peers[p := Of(peers, p).(unavailablePsm := true)];
    }

    method ResetSession(p: Peer)
      modifies this
      ensures peers == old(peers) - {p}
    {
      peers := peers - {p};
    }
  }

  lemma {:induction false} DoubledAtLeast(n: nat)
    ensures Doubled(n) >= 15
  {
    if n > 0 {
      DoubledAtLeast(n - 1);
    }
  }

  /** The jittered back-off lies between its base and a fifth more, and never exceeds six minutes. */
  lemma DelayBounds(failures: nat, random: nat)
    ensures 1000 * Seconds(failures) <= Delay(failures, random) <= 1200 * Seconds(failures)
    ensures 15_000 <= Delay(failures, random) <= 360_000
  {
    DoubledAtLeast(if failures < 5 then failures else 5);
  }

  /** All quick retries of a session together. */
  function QuickTotal(attempts: nat): nat
    requires attempts <= |BUSY_RETRY_MS|
  {
    if attempts == 0 then 0 else QuickTotal(attempts - 1) + BUSY_RETRY_MS[attempts - 1]
  }

  lemma QuickTotalBounded(attempts: nat)
    requires attempts <= |BUSY_RETRY_MS|
    ensures QuickTotal(attempts) <= 4750
    ensures attempts == |BUSY_RETRY_MS| ==> QuickTotal(attempts) == 4750
  {
    if attempts > 0 {
      assert QuickTotal(0) == 0;
      assert QuickTotal(1) == 250;
      assert QuickTotal(2) == 750;
      assert QuickTotal(3) == 1750;
      assert QuickTotal(4) == 2750;
      assert QuickTotal(5) == 3750;
      assert QuickTotal(6) == 4750;
    }
  }

  /** Clearing due deadlines changes no answer, and leaves only deadlines still to come. */
  lemma ClearDueChangesNothing(peers: Peers, now: Time, p: Peer, later: Time)
    requires now <= later
    ensures Ready(ClearDue(peers, now), p, later) == Ready(peers, p, later)
    ensures p in peers ==> var after := ClearDue(peers, now)[p].after; after.Some? ==> after.value > now
  {
  }
}

/** Fast Pair connection attempts and their streams (`ConnectionState` in src/fast_pair.rs). */
module FastPairLinks {
  import opened Wrappers
  import opened Pacing
  import opened FastPairRetry

  const STALE_CONNECT := 30_000
  const LONG_STREAM := 60_000
  const U64_LIMIT := 0x1_0000_0000_0000_0000
  const SHORTEST_BACK_OFF := 15_000
  const BUSY_RETRIES := 6

  datatype Transport = Rfcomm | L2cap

  datatype Link = Connecting(attempt: nat, started: Time) | Connected(since: Time)

  datatype State = State(links: map<Peer, Link>, writers: set<Peer>, retry: Peers, nextAttempt: nat)

  predicate Pending(s: State, p: Peer) {
    p in s.links && s.links[p].Connecting?
  }

  predicate Streaming(s: State, p: Peer) {
    p in s.links && s.links[p].Connected?
  }

  function Swept(s: State, p: Peer, now: Time, random: nat): State {
    if Pending(s, p) && now >= s.links[p].started + STALE_CONNECT
    then s.(links := s.links - {p}, retry := s.retry[p := Failed(Of(s.retry, p), now, random)])
    else s
  }

  predicate MayBegin(s: State, p: Peer, transport: Transport, now: Time) {
    && p !in s.links
    && Ready(s.retry, p, now)
    && (transport == L2cap ==> !Of(s.retry, p).unavailablePsm)
  }

  function AfterBegin(s: State, p: Peer, transport: Transport, now: Time, random: nat): (State, Option<nat>) {
    var t := Swept(s, p, now, random);
    if !MayBegin(t, p, transport, now) then (t, None)
    else
      // The counter wraps.
      var attempt := (t.nextAttempt + 1) % U64_LIMIT;
      (t.(links := t.links[p := Connecting(attempt, now)], nextAttempt := attempt), Some(attempt))
  }

  predicate IsCurrent(s: State, p: Peer, attempt: nat) {
    Pending(s, p) && s.links[p].attempt == attempt
  }

  function AfterChange(s: State, p: Peer, connected: bool): State {
    s.(retry := s.retry - {p}, links := if !connected && Pending(s, p) then s.links - {p} else s.links)
  }

  function AfterConnected(s: State, p: Peer, now: Time): State {
    if Streaming(s, p) then s
    else s.(links := s.links[p := Connected(now)],
            retry := if p in s.retry then s.retry[p := s.retry[p].(after := None)] else s.retry)
  }

  function AfterCompleted(s: State, p: Peer, attempt: nat, now: Time): State {
    if IsCurrent(s, p, attempt) then AfterConnected(s, p, now) else s
  }

  predicate Long(s: State, p: Peer, now: Time) {
    Streaming(s, p) && now >= s.links[p].since + LONG_STREAM
  }

  function AfterEnded(s: State, p: Peer, now: Time, random: nat): State {
    var retry := if Long(s, p, now) then s.retry - {p} else s.retry;
    s.(links := s.links - {p}, writers := s.writers - {p}, retry := retry[p := Failed(Of(retry, p), now, random)])
  }

  function AfterFailed(s: State, p: Peer, attempt: nat, busy: bool, now: Time, random: nat): State {
    if IsCurrent(s, p, attempt)
    then s.(links := s.links - {p}, retry := s.retry[p := ConnectionFailed(Of(s.retry, p), busy, now, random)])
    else s
  }

  class ConnectionState {
    var links: map<Peer, Link>
    var writers: set<Peer>
    var nextAttempt: nat
    const retry: RetryPolicy

    function View(): State
      reads this, retry
    {
      State(links, writers, retry.peers, nextAttempt)
    }

    constructor ()
      ensures fresh(retry) && View() == State(map[], {}, map[], 0)
    {
      links, writers, nextAttempt := map[], {}, 0;
      retry := new RetryPolicy();
    }

    method Begin(p: Peer, transport: Transport, now: Time, random: nat) returns (attempt: Option<nat>)
      modifies this, retry
      ensures (View(), attempt) == AfterBegin(old(View()), p, transport, now, random)
    {
      if p in links && links[p].Connecting? && now >= links[p].started + STALE_CONNECT {
        links := links - {p};
        retry.NoteFailed(p, now, random);
      }
      var ready := retry.IsReady(p, now);
      if p in links || !ready || (transport == L2cap && Of(retry.peers, p).unavailablePsm) {
        return None;
      }
      nextAttempt := (nextAttempt + 1) % U64_LIMIT;
      links := links[p := Connecting(nextAttempt, now)];
      attempt := Some(nextAttempt);
    }

    method NoteConnectionChange(p: Peer, connected: bool)
      modifies this, retry
      ensures View() == AfterChange(old(View()), p, connected)
    {
      retry.ResetSession(p);
      if !connected && p in links && links[p].Connecting? {
        links := links - {p};
      }
    }

    method MarkConnected(p: Peer, now: Time) returns (accepted: bool)
      modifies this, retry
      ensures View() == AfterConnected(old(View()), p, now)
      ensures accepted <==> !Streaming(old(View()), p)
    {
      if p in links && links[p].Connected? {
        return false;
      }
      links := links[p := Connected(now)];
      retry.NoteConnected(p);
      accepted := true;
    }

    method ConnectCompleted(p: Peer, attempt: nat, now: Time) returns (accepted: bool)
      modifies this, retry
      ensures View() == AfterCompleted(old(View()), p, attempt, now)
      ensures accepted <==> IsCurrent(old(View()), p, attempt)
    {
      accepted := p in links && links[p].Connecting? && links[p].attempt == attempt;
      if accepted {
        accepted := MarkConnected(p, now);
      }
    }

    method Ended(p: Peer, now: Time, random: nat)
      modifies this, retry
      ensures View() == AfterEnded(old(View()), p, now, random)
    {
      var long := p in links && links[p].Connected? && now >= links[p].since + LONG_STREAM;
      links := links - {p};
      writers := writers - {p};
      if long {
        retry.ResetSession(p);
      }
      retry.NoteFailed(p, now, random);
    }

    method NoteAttemptFailed(p: Peer, attempt: nat, busy: bool, now: Time, random: nat)
      modifies this, retry
      ensures View() == AfterFailed(old(View()), p, attempt, busy, now, random)
    {
      if p in links && links[p].Connecting? && links[p].attempt == attempt {
        links := links - {p};
        retry.NoteConnectionFailed(p, busy, now, random);
      }
    }
  }

  // ---------------------------------------------------------------- runs

  /** The connection state, the live readers, the peers of all attempts granted so far, and the clock. */
  datatype System = System(state: State, readers: multiset<Peer>, grants: seq<Peer>, now: Time)

  const INITIAL := System(State(map[], {}, map[], 0), multiset{}, [], 0)

  datatype Event =
    | Begin(p: Peer, transport: Transport)
    | IncomingStream(p: Peer)
    | Completed(p: Peer, attempt: nat)
    | AttemptFailed(p: Peer, attempt: nat, busy: bool)
    | ConnectionChange(p: Peer, connected: bool)
    | InstallWriter(p: Peer)
    | ReaderEnded(p: Peer)
    | PsmIsUnknown(p: Peer, attempt: nat)
    | PsmIsUnavailable(p: Peer, attempt: nat)
    | DueCleared

  datatype Action = Action(event: Event, at: Time, random: nat)

  predicate About(a: Action, p: Peer) {
    !a.event.DueCleared? && a.event.p == p
  }

  /** Only a live reader installs its writer and reports its end, once; reports come from attempts that were granted. */
  predicate Enabled(s: System, a: Action) {
    && a.at >= s.now
    && (a.event.InstallWriter? || a.event.ReaderEnded? ==> a.event.p in s.readers)
    && (a.event.PsmIsUnknown? || a.event.PsmIsUnavailable? ==>
        a.event.attempt < |s.grants| && s.grants[a.event.attempt] == a.event.p)
  }

  function Next(s: System, a: Action): System {
    if !Enabled(s, a) then s
    else
      match a.event
      case Begin(p, transport) =>
        var (state, attempt) := AfterBegin(s.state, p, transport, a.at, a.random);
        System(state, s.readers, if attempt.Some? then s.grants + [p] else s.grants, a.at)
      case IncomingStream(p) =>
        System(AfterConnected(s.state, p, a.at), if Streaming(s.state, p) then s.readers else s.readers + multiset{p},
               s.grants, a.at)
      case Completed(p, attempt) =>
        System(AfterCompleted(s.state, p, attempt, a.at),
               if IsCurrent(s.state, p, attempt) then s.readers + multiset{p} else s.readers, s.grants, a.at)
      case AttemptFailed(p, attempt, busy) =>
        s.(state := AfterFailed(s.state, p, attempt, busy, a.at, a.random), now := a.at)
      case ConnectionChange(p, connected) => s.(state := AfterChange(s.state, p, connected), now := a.at)
      case InstallWriter(p) => s.(state := s.state.(writers := s.state.writers + {p}), now := a.at)
      case ReaderEnded(p) =>
        System(AfterEnded(s.state, p, a.at, a.random), s.readers - multiset{p}, s.grants, a.at)
      case PsmIsUnknown(p, _) =>
        s.(state := s.state.(retry := s.state.retry[p := PsmUnknown(Of(s.state.retry, p))]), now := a.at)
      case PsmIsUnavailable(p, _) =>
        s.(state := s.state.(retry := s.state.retry[p := Of(s.state.retry, p).(unavailablePsm := true)]), now := a.at)
      case DueCleared => s.(state := s.state.(retry := ClearDue(s.state.retry, a.at)), now := a.at)
  }

  function RunFrom(s: System, actions: seq<Action>): System {
    if actions == [] then s else Next(RunFrom(s, actions[..|actions| - 1]), actions[|actions| - 1])
  }

  function Run(actions: seq<Action>): System {
    RunFrom(INITIAL, actions)
  }

  // ---------------------------------------------------------------- one reader, no stale results

  /** The number of the last attempt granted to `p`, counting from one; zero if there is none. */
  function LastGrant(grants: seq<Peer>, p: Peer): (n: nat)
    ensures n <= |grants|
    ensures n > 0 ==> grants[n - 1] == p
    ensures forall i :: n <= i < |grants| ==> grants[i] != p
  {
    if grants == [] then 0
    else if grants[|grants| - 1] == p then |grants|
    else LastGrant(grants[..|grants| - 1], p)
  }

  predicate RetryGood(r: PeerRetry) {
    && r.busyAttempts <= |BUSY_RETRY_MS|
    && r.unknownPsm <= U8_MAX
    && (r.unknownPsm >= 3 ==> r.unavailablePsm)
  }

  /** One reader per stream, writers only beside readers, and a pending attempt is the last one granted. */
  predicate PeerGood(s: System, p: Peer) {
    Consistent(s.state, p, s.readers[p], LastGrant(s.grants, p), s.now)
  }

  predicate Consistent(s: State, p: Peer, readers: nat, last: nat, now: Time) {
    && readers == (if Streaming(s, p) then 1 else 0)
    && (p in s.writers ==> Streaming(s, p))
    && (Streaming(s, p) ==> s.links[p].since <= now)
    && (Pending(s, p) ==> s.links[p].started <= now && last > 0 && s.links[p].attempt == last % U64_LIMIT)
    && RetryGood(Of(s.retry, p))
  }

  ghost predicate Good(s: System) {
    s.state.nextAttempt == |s.grants| % U64_LIMIT && forall p :: PeerGood(s, p)
  }

  lemma LastGrantGrows(grants: seq<Peer>, g: Peer, p: Peer)
    ensures LastGrant(grants + [g], p) == if g == p then |grants| + 1 else LastGrant(grants, p)
  {
    assert (grants + [g])[..|grants|] == grants;
  }

  predicate SameFor(x: State, y: State, p: Peer, now: Time) {
    && (p in x.links <==> p in y.links)
    && (p in x.links ==> x.links[p] == y.links[p])
    && (p in x.writers <==> p in y.writers)
    && (p in x.retry <==> p in y.retry)
    && (p in x.retry ==> y.retry[p] == x.retry[p] || y.retry[p] == Cleared(x.retry[p], now))
  }

  /** Nothing about `p` changes but the clock and deadlines already past. */
  predicate SamePeer(s: System, t: System, p: Peer) {
    && SameFor(s.state, t.state, p, t.now)
    && s.readers[p] == t.readers[p]
    && LastGrant(s.grants, p) == LastGrant(t.grants, p)
    && s.now <= t.now
  }

  lemma BeginSparesOthers(x: State, q: Peer, transport: Transport, now: Time, random: nat, p: Peer)
    requires p != q
    ensures SameFor(x, AfterBegin(x, q, transport, now, random).0, p, now)
  {
  }

  lemma BeginLeavesOthers(s: System, a: Action, p: Peer)
    requires a.event.Begin? && a.event.p != p && Enabled(s, a)
    ensures SamePeer(s, Next(s, a), p)
  {
    BeginSparesOthers(s.state, a.event.p, a.event.transport, a.at, a.random, p);
    LastGrantGrows(s.grants, a.event.p, p);
  }

  lemma SessionLeavesOthers(s: System, a: Action, p: Peer)
    requires a.event.ConnectionChange? || a.event.InstallWriter? || a.event.ReaderEnded?
    requires a.event.p != p && Enabled(s, a)
    ensures SamePeer(s, Next(s, a), p)
  {
  }

  lemma AttemptSparesOthers(x: State, q: Peer, attempt: nat, busy: bool, now: Time, random: nat, p: Peer)
    requires p != q
    ensures SameFor(x, AfterConnected(x, q, now), p, now)
    ensures SameFor(x, AfterFailed(x, q, attempt, busy, now, random), p, now)
  {
  }

  lemma AttemptLeavesOthers(s: System, a: Action, p: Peer)
    requires a.event.IncomingStream? || a.event.Completed? || a.event.AttemptFailed?
    requires a.event.p != p && Enabled(s, a)
    ensures SamePeer(s, Next(s, a), p)
  {
    match a.event
    case IncomingStream(q) => AttemptSparesOthers(s.state, q, 0, false, a.at, a.random, p);
    case Completed(q, n) => AttemptSparesOthers(s.state, q, n, false, a.at, a.random, p);
    case AttemptFailed(q, n, busy) => AttemptSparesOthers(s.state, q, n, busy, a.at, a.random, p);
  }

  lemma ReportLeavesOthers(s: System, a: Action, p: Peer)
    requires a.event.PsmIsUnknown? || a.event.PsmIsUnavailable? || a.event.DueCleared?
    requires !About(a, p) && Enabled(s, a)
    ensures SamePeer(s, Next(s, a), p)
  {
  }

  lemma OtherPeersSame(s: System, a: Action, p: Peer)
    requires Enabled(s, a) && !About(a, p)
    ensures SamePeer(s, Next(s, a), p)
  {
    if a.event.Begin? {
      BeginLeavesOthers(s, a, p);
    } else if a.event.ConnectionChange? || a.event.InstallWriter? || a.event.ReaderEnded? {
      SessionLeavesOthers(s, a, p);
    } else if a.event.IncomingStream? || a.event.Completed? || a.event.AttemptFailed? {
      AttemptLeavesOthers(s, a, p);
    } else {
      ReportLeavesOthers(s, a, p);
    }
  }

  lemma BeginKeepsConsistent(x: State, p: Peer, transport: Transport, before: Time, now: Time, random: nat,
                             readers: nat, last: nat)
    requires Consistent(x, p, readers, last, before) && before <= now
    ensures var (y, attempt) := AfterBegin(x, p, transport, now, random);
            && (attempt.None? ==> Consistent(y, p, readers, last, now) && y.nextAttempt == x.nextAttempt)
            && (attempt.Some? ==> y.nextAttempt == attempt.value == (x.nextAttempt + 1) % U64_LIMIT)
            && (forall n: nat :: attempt == Some(n % U64_LIMIT) && n > 0 ==> Consistent(y, p, readers, n, now))
  {
  }

  lemma BeginKeepsPeer(s: System, a: Action)
    requires a.event.Begin? && PeerGood(s, a.event.p) && Enabled(s, a) && s.state.nextAttempt == |s.grants| % U64_LIMIT
    ensures PeerGood(Next(s, a), a.event.p)
    ensures Next(s, a).state.nextAttempt == |Next(s, a).grants| % U64_LIMIT
  {
    var p := a.event.p;
    BeginKeepsConsistent(s.state, p, a.event.transport, s.now, a.at, a.random, s.readers[p], LastGrant(s.grants, p));
    LastGrantGrows(s.grants, p, p);
    NextNumber(|s.grants|);
  }

  lemma NextNumber(n: nat)
    ensures (n % U64_LIMIT + 1) % U64_LIMIT == (n + 1) % U64_LIMIT
  {
  }

  lemma SamePeerGood(s: System, t: System, p: Peer)
    requires PeerGood(s, p) && SamePeer(s, t, p)
    ensures PeerGood(t, p)
  {
  }

  lemma AttemptKeepsPeer(s: System, a: Action, p: Peer)
    requires PeerGood(s, p) && Enabled(s, a) && About(a, p)
    requires a.event.IncomingStream? || a.event.Completed? || a.event.AttemptFailed?
    ensures PeerGood(Next(s, a), p)
  {
  }

  lemma SessionKeepsPeer(s: System, a: Action, p: Peer)
    requires PeerGood(s, p) && Enabled(s, a) && About(a, p)
    requires a.event.ConnectionChange? || a.event.InstallWriter? || a.event.ReaderEnded?
    ensures PeerGood(Next(s, a), p)
  {
  }

  lemma ReportKeepsPeer(s: System, a: Action, p: Peer)
    requires PeerGood(s, p) && Enabled(s, a) && About(a, p)
    requires a.event.PsmIsUnknown? || a.event.PsmIsUnavailable?
    ensures PeerGood(Next(s, a), p)
  {
  }

  lemma NextKeepsPeer(s: System, a: Action, p: Peer)
    requires PeerGood(s, p) && Enabled(s, a) && s.state.nextAttempt == |s.grants| % U64_LIMIT
    ensures PeerGood(Next(s, a), p)
  {
    if !About(a, p) {
      OtherPeersSame(s, a, p);
      SamePeerGood(s, Next(s, a), p);
    } else {
      match a.event
      case Begin(_, _) => BeginKeepsPeer(s, a);
      case IncomingStream(_) => AttemptKeepsPeer(s, a, p);
      case Completed(_, _) => AttemptKeepsPeer(s, a, p);
      case AttemptFailed(_, _, _) => AttemptKeepsPeer(s, a, p);
      case ConnectionChange(_, _) => SessionKeepsPeer(s, a, p);
      case InstallWriter(_) => SessionKeepsPeer(s, a, p);
      case ReaderEnded(_) => SessionKeepsPeer(s, a, p);
      case PsmIsUnknown(_, _) => ReportKeepsPeer(s, a, p);
      case PsmIsUnavailable(_, _) => ReportKeepsPeer(s, a, p);
    }
  }

  lemma NextKeeps(s: System, a: Action)
    requires Good(s)
    ensures Good(Next(s, a))
  {
    if Enabled(s, a) {
      forall p ensures PeerGood(Next(s, a), p) {
        NextKeepsPeer(s, a, p);
      }
      if a.event.Begin? {
        BeginKeepsPeer(s, a);
      }
    }
  }

  /** The invariant holds after every interleaving. */
  lemma {:induction false} RunGood(actions: seq<Action>)
    ensures Good(Run(actions))
  {
    if actions != [] {
      RunGood(actions[..|actions| - 1]);
      NextKeeps(Run(actions[..|actions| - 1]), actions[|actions| - 1]);
    }
  }

  /** At most one reader serves a peer; while it does, no attempt is pending, and only then is there a writer. */
  lemma AtMostOneReader(actions: seq<Action>, p: Peer)
    ensures var s := Run(actions);
            && s.readers[p] <= 1
            && (s.readers[p] == 1 ==> !Pending(s.state, p))
            && (p in s.state.writers ==> s.readers[p] == 1)
  {
    RunGood(actions);
    assert PeerGood(Run(actions), p);
  }

  /**
   The result of the `i`-th attempt changes nothing once it is not the peer's pending one:
   after a later attempt, for another peer, or once it is over. The counter wraps, so this
   holds for runs of at most 2^64 attempts.
   */
  lemma LateResultIgnored(actions: seq<Action>, i: nat, p: Peer, busy: bool, now: Time, random: nat)
    requires i < |Run(actions).grants| <= U64_LIMIT
    requires var s := Run(actions);
             || p != s.grants[i]
             || !Pending(s.state, p)
             || exists j :: i < j < |s.grants| && s.grants[j] == p
    ensures var s := Run(actions).state; var attempt := (i + 1) % U64_LIMIT;
            && AfterCompleted(s, p, attempt, now) == s
            && AfterFailed(s, p, attempt, busy, now, random) == s
  {
    var s := Run(actions);
    RunGood(actions);
    assert PeerGood(s, p);
    if Pending(s.state, p) {
      DistinctResidues(i + 1, LastGrant(s.grants, p));
    }
  }

  lemma DistinctResidues(i: nat, k: nat)
    requires 1 <= i <= U64_LIMIT && 1 <= k <= U64_LIMIT && i != k
    ensures i % U64_LIMIT != k % U64_LIMIT
  {
    if i == U64_LIMIT {
      assert i % U64_LIMIT == 0;
    }
    if k == U64_LIMIT {
      assert k % U64_LIMIT == 0;
    }
  }

  // ---------------------------------------------------------------- the low-energy transport

  /** A new session begins: nothing of the old one is remembered. */
  predicate Resets(s: System, a: Action, p: Peer) {
    && Enabled(s, a)
    && ((a.event.ConnectionChange? && a.event.p == p) || (a.event == ReaderEnded(p) && Long(s.state, p, a.at)))
  }

  /**
   The availability reports processed in the present session, its own ones and those of attempts
   granted before it began; `start` is the number of attempts granted before.
   */
  datatype Reports = Reports(start: nat, ownUnknown: nat, lateUnknown: nat, ownUnavailable: bool,
                             lateUnavailable: bool) {
    function Unknown(): nat {
      ownUnknown + lateUnknown
    }

    predicate Block() {
      ownUnavailable || lateUnavailable || Unknown() >= 3
    }
  }

  function Noted(r: Reports, s: System, a: Action, p: Peer): Reports {
    if !Enabled(s, a) then r
    else if Resets(s, a, p) then Reports(|s.grants|, 0, 0, false, false)
    else match a.event
      case PsmIsUnknown(q, attempt) =>
        if q != p then r
        else if attempt >= r.start then r.(ownUnknown := r.ownUnknown + 1) else r.(lateUnknown := r.lateUnknown + 1)
      case PsmIsUnavailable(q, attempt) =>
        if q != p then r
        else if attempt >= r.start then r.(ownUnavailable := true) else r.(lateUnavailable := true)
      case _ => r
  }

  function SessionReports(actions: seq<Action>, p: Peer): Reports {
    if actions == [] then Reports(0, 0, 0, false, false)
    else
      var n := |actions| - 1;
      Noted(SessionReports(actions[..n], p), Run(actions[..n]), actions[n], p)
  }

  predicate Remembers(r: PeerRetry, reports: Reports) {
    && r.unknownPsm == (if reports.Unknown() < U8_MAX then reports.Unknown() else U8_MAX)
    && (r.unavailablePsm <==> reports.Block())
  }

  lemma SameRemembers(s: System, t: System, p: Peer, r: Reports)
    requires Remembers(Of(s.state.retry, p), r) && SamePeer(s, t, p)
    ensures Remembers(Of(t.state.retry, p), r)
  {
  }

  lemma NotedOnlyAbout(r: Reports, s: System, a: Action, p: Peer)
    requires !About(a, p)
    ensures Noted(r, s, a, p) == r
  {
  }

  lemma ReportRemembers(s: System, a: Action, p: Peer, r: Reports)
    requires Remembers(Of(s.state.retry, p), r) && Enabled(s, a) && About(a, p)
    requires a.event.PsmIsUnknown? || a.event.PsmIsUnavailable?
    ensures Remembers(Of(Next(s, a).state.retry, p), Noted(r, s, a, p))
  {
  }

  lemma ResetRemembers(s: System, a: Action, p: Peer, r: Reports)
    requires Resets(s, a, p)
    ensures Remembers(Of(Next(s, a).state.retry, p), Noted(r, s, a, p))
  {
  }

  /** Whatever else happens to a peer leaves the availability alone. */
  predicate SamePsm(a: PeerRetry, b: PeerRetry) {
    a.unknownPsm == b.unknownPsm && a.unavailablePsm == b.unavailablePsm
  }

  lemma AttemptSamePsm(s: System, a: Action, p: Peer)
    requires Enabled(s, a) && About(a, p)
    requires a.event.Begin? || a.event.IncomingStream? || a.event.Completed? || a.event.AttemptFailed?
    ensures SamePsm(Of(s.state.retry, p), Of(Next(s, a).state.retry, p))
  {
  }

  lemma StreamSamePsm(s: System, a: Action, p: Peer)
    requires Enabled(s, a) && About(a, p) && !Resets(s, a, p)
    requires a.event.InstallWriter? || a.event.ReaderEnded?
    ensures SamePsm(Of(s.state.retry, p), Of(Next(s, a).state.retry, p))
  {
  }

  lemma NextRemembers(s: System, a: Action, p: Peer, r: Reports)
    requires Remembers(Of(s.state.retry, p), r)
    ensures Remembers(Of(Next(s, a).state.retry, p), Noted(r, s, a, p))
  {
    if Enabled(s, a) {
      if !About(a, p) {
        OtherPeersSame(s, a, p);
        SameRemembers(s, Next(s, a), p, r);
        NotedOnlyAbout(r, s, a, p);
      } else if Resets(s, a, p) {
        ResetRemembers(s, a, p, r);
      } else if a.event.PsmIsUnknown? || a.event.PsmIsUnavailable? {
        ReportRemembers(s, a, p, r);
      } else if a.event.InstallWriter? || a.event.ReaderEnded? {
        StreamSamePsm(s, a, p);
      } else {
        AttemptSamePsm(s, a, p);
      }
    }
  }

  lemma {:induction false} RunRemembers(actions: seq<Action>, p: Peer)
    ensures Remembers(Of(Run(actions).state.retry, p), SessionReports(actions, p))
  {
    if actions != [] {
      var n := |actions| - 1;
      RunRemembers(actions[..n], p);
      NextRemembers(Run(actions[..n]), actions[n], p, SessionReports(actions[..n], p));
    }
  }

  predicate Blocked(s: System, p: Peer) {
    Of(s.state.retry, p).unavailablePsm
  }

  /**
   The low-energy transport is blocked exactly if, since the last connection change or the end of a
   long stream, one report of an unavailable stream or three of an unknown one were processed,
   whichever attempts they came from.
   */
  lemma BlockedIff(actions: seq<Action>, p: Peer)
    ensures Blocked(Run(actions), p) <==> SessionReports(actions, p).Block()
  {
    RunRemembers(actions, p);
  }

  lemma TransportsDiffer(s: State, p: Peer, now: Time, random: nat)
    ensures AfterBegin(s, p, L2cap, now, random).1.Some?
       <==> AfterBegin(s, p, Rfcomm, now, random).1.Some? && !Of(s.retry, p).unavailablePsm
  {
    SweepSamePsm(s, p, now, random);
  }

  lemma SweepSamePsm(s: State, p: Peer, now: Time, random: nat)
    ensures SamePsm(Of(s.retry, p), Of(Swept(s, p, now, random).retry, p))
  {
  }

  /** A blocked session starts no low-energy attempt, and blocking is the only way in which the transports differ. */
  lemma L2capGrantedIff(actions: seq<Action>, p: Peer, now: Time, random: nat)
    ensures AfterBegin(Run(actions).state, p, L2cap, now, random).1.Some?
       <==> && AfterBegin(Run(actions).state, p, Rfcomm, now, random).1.Some?
            && !SessionReports(actions, p).Block()
  {
    RunRemembers(actions, p);
    TransportsDiffer(Run(actions).state, p, now, random);
  }

  /** A report about `p` from an attempt granted before the present session began. */
  predicate LateReport(actions: seq<Action>, a: Action, p: Peer) {
    && Enabled(Run(actions), a)
    && (a.event.PsmIsUnknown? || a.event.PsmIsUnavailable?)
    && a.event.p == p && a.event.attempt < SessionReports(actions, p).start
  }

  lemma RunThen(actions: seq<Action>, a: Action)
    ensures Run(actions + [a]) == Next(Run(actions), a)
    ensures (actions + [a])[..|actions|] == actions
  {
    assert (actions + [a])[..|actions|] == actions;
  }

  /**
   A report left over from an earlier session blocks the present one exactly if that is not blocked
   yet and the report says that the stream is unavailable, or is the third that does not know.
   */
  lemma LateReportBlocksIff(actions: seq<Action>, a: Action, p: Peer)
    requires LateReport(actions, a, p)
    ensures !Blocked(Run(actions), p) && Blocked(Run(actions + [a]), p)
       <==> && !SessionReports(actions, p).Block()
            && (a.event.PsmIsUnavailable? || SessionReports(actions, p).Unknown() == 2)
  {
    RunThen(actions, a);
    RunRemembers(actions, p);
    RunRemembers(actions + [a], p);
  }

  /** Such a report is reachable: the connection changes while the first attempt still reads the availability. */
  lemma LatePsmReportBlocksNewSession(p: Peer, later: Time, random: nat)
    ensures var begun := RunFrom(INITIAL, [Action(Begin(p, L2cap), 0, 0)]);
            var reset := Next(begun, Action(ConnectionChange(p, false), 0, 0));
            var reported := Next(reset, Action(PsmIsUnavailable(p, 0), 0, 0));
            && begun.grants == [p] && !Pending(reset.state, p)
            && AfterBegin(reset.state, p, L2cap, later, random).1.Some?
            && AfterBegin(reported.state, p, L2cap, later, random).1.None?
  {
    var begin := Action(Begin(p, L2cap), 0, 0);
    assert [begin][..0] == [];
    assert RunFrom(INITIAL, [begin]) == Next(INITIAL, begin);
  }

  // ---------------------------------------------------------------- the rate of attempts

  predicate Grants(s: System, a: Action, p: Peer) {
    && Enabled(s, a)
    && a.event.Begin? && a.event.p == p
    && AfterBegin(s.state, p, a.event.transport, a.at, a.random).1.Some?
  }

  function Counted(c: Tally, s: System, a: Action, p: Peer): Tally {
    Count(c, Grants(s, a, p), a.at)
  }

  function TallyFrom(s: System, actions: seq<Action>, p: Peer): Tally {
    if actions == [] then NONE_GRANTED
    else
      var n := |actions| - 1;
      Counted(TallyFrom(s, actions[..n], p), RunFrom(s, actions[..n]), actions[n], p)
  }

  /** Neither a connection change of the peer nor the end of a stream that stayed up for a minute. */
  predicate Unforgiven(s: System, a: Action, p: Peer) {
    && !(a.event.ConnectionChange? && a.event.p == p)
    && !(a.event == ReaderEnded(p) && Long(s.state, p, a.at))
  }

  predicate NeverForgiven(s: System, actions: seq<Action>, p: Peer) {
    forall i :: 0 <= i < |actions| ==> Unforgiven(RunFrom(s, actions[..i]), actions[i], p)
  }

  function Busy(s: State, p: Peer): nat {
    Of(s.retry, p).busyAttempts
  }

  /** When the next attempt may start at the earliest. */
  function Earliest(s: System, p: Peer): Time {
    if Of(s.state.retry, p).after.Some? then Of(s.state.retry, p).after.value else s.now
  }

  /** Every grant but the first, and those paid from the busy budget, took 15 seconds. */
  predicate Paced(s: System, c: Tally, p: Peer, busy: nat) {
    && busy <= Busy(s.state, p)
    && (c.grants > 0 ==>
        var used := Busy(s.state, p) - busy;
        && c.first <= c.last <= s.now
        && SHORTEST_BACK_OFF * (c.grants - 1 - used) <= c.last - c.first
        && (p !in s.state.links ==> SHORTEST_BACK_OFF * (c.grants - used) <= Earliest(s, p) - c.first))
  }

  lemma OtherPeersPaced(s: System, a: Action, c: Tally, p: Peer, busy: nat)
    requires Paced(s, c, p, busy) && Enabled(s, a) && !About(a, p)
    ensures Paced(Next(s, a), Counted(c, s, a, p), p, busy)
  {
    OtherPeersSame(s, a, p);
  }

  lemma BeginKeepsPace(s: System, a: Action, c: Tally, busy: nat)
    requires a.event.Begin? && PeerGood(s, a.event.p) && Enabled(s, a)
    requires Paced(s, c, a.event.p, busy)
    ensures Paced(Next(s, a), Counted(c, s, a, a.event.p), a.event.p, busy)
  {
    DelayBounds(Of(s.state.retry, a.event.p).failures, a.random);
  }

  lemma AttemptKeepsPace(s: System, a: Action, c: Tally, p: Peer, busy: nat)
    requires a.event.IncomingStream? || a.event.Completed? || a.event.AttemptFailed?
    requires Enabled(s, a) && About(a, p) && PeerGood(s, p) && Paced(s, c, p, busy)
    ensures Paced(Next(s, a), Counted(c, s, a, p), p, busy)
  {
    DelayBounds(Of(s.state.retry, p).failures, a.random);
  }

  lemma OwnEventKeepsPace(s: System, a: Action, c: Tally, p: Peer, busy: nat)
    requires !a.event.Begin? && Enabled(s, a) && About(a, p)
    requires PeerGood(s, p) && Paced(s, c, p, busy) && Unforgiven(s, a, p)
    ensures Paced(Next(s, a), Counted(c, s, a, p), p, busy)
  {
    if a.event.IncomingStream? || a.event.Completed? || a.event.AttemptFailed? {
      AttemptKeepsPace(s, a, c, p, busy);
    } else {
      DelayBounds(Of(s.state.retry, p).failures, a.random);
    }
  }

  lemma NextKeepsPace(s: System, a: Action, c: Tally, p: Peer, busy: nat)
    requires PeerGood(s, p) && Paced(s, c, p, busy) && Unforgiven(s, a, p)
    ensures Paced(Next(s, a), Counted(c, s, a, p), p, busy)
  {
    if Enabled(s, a) {
      if !About(a, p) {
        OtherPeersPaced(s, a, c, p, busy);
      } else if a.event.Begin? {
        BeginKeepsPace(s, a, c, busy);
      } else {
        OwnEventKeepsPace(s, a, c, p, busy);
      }
    }
  }

  lemma {:induction false} RunFromAppend(s: System, a: seq<Action>, b: seq<Action>)
    ensures RunFrom(s, a + b) == RunFrom(RunFrom(s, a), b)
  {
    if b == [] {
      assert a + b == a;
    } else {
      assert (a + b)[..|a + b| - 1] == a + b[..|b| - 1];
      RunFromAppend(s, a, b[..|b| - 1]);
    }
  }

  lemma {:induction false} RunKeepsPace(before: seq<Action>, actions: seq<Action>, p: Peer)
    requires NeverForgiven(Run(before), actions, p)
    ensures Good(RunFrom(Run(before), actions))
    ensures Paced(RunFrom(Run(before), actions), TallyFrom(Run(before), actions, p), p, Busy(Run(before).state, p))
  {
    var s := Run(before);
    RunFromAppend(INITIAL, before, actions);
    RunGood(before + actions);
    if actions != [] {
      var n := |actions| - 1;
      var earlier := actions[..n];
      assert forall i :: 0 <= i < n ==> earlier[..i] == actions[..i];
      RunKeepsPace(before, earlier, p);
      assert PeerGood(RunFrom(s, earlier), p);
      NextKeepsPace(RunFrom(s, earlier), actions[n], TallyFrom(s, earlier, p), p, Busy(s.state, p));
    }
  }

  /**
   In any part of any run without a connection change of the peer and without a stream that
   stayed up for a minute, at most 7 + T / 15 attempts are granted to the peer in T seconds.
   */
  lemma AttemptRateBounded(before: seq<Action>, actions: seq<Action>, p: Peer)
    requires NeverForgiven(Run(before), actions, p)
    ensures SHORTEST_BACK_OFF * TallyFrom(Run(before), actions, p).grants
         <= SHORTEST_BACK_OFF * (BUSY_RETRIES + 1) + RunFrom(Run(before), actions).now - Run(before).now
  {
    RunKeepsPace(before, actions, p);
    FirstAfterStart(Run(before), actions, p);
    assert PeerGood(RunFrom(Run(before), actions), p);
  }

  lemma {:induction false} FirstAfterStart(s: System, actions: seq<Action>, p: Peer)
    ensures s.now <= RunFrom(s, actions).now
    ensures TallyFrom(s, actions, p).grants > 0 ==> s.now <= TallyFrom(s, actions, p).first
  {
    if actions != [] {
      FirstAfterStart(s, actions[..|actions| - 1], p);
      ClockAdvances(RunFrom(s, actions[..|actions| - 1]), actions[|actions| - 1]);
    }
  }

  lemma ClockAdvances(s: System, a: Action)
    ensures s.now <= Next(s, a).now
  {
  }
}
