/**
 Connection attempts of the vendor channels (src/vendor_channel.rs): `Links` with its back-off, and
 the streams whose readers own the teardown. Times are milliseconds of a clock that never runs back.
 */
module VendorLinks {
  import opened Wrappers
  import opened Pacing

  type Peer = string

  const STALE_CONNECT := 30_000
  const BUSY_RETRIES := 6
  const BUSY_DELAY := 1_000
  const LONG_STREAM := 60_000
  const SHORTEST_BACK_OFF := 15_000
  const LONGEST_BACK_OFF := 300_000
  const U64_MAX := 0xffff_ffff_ffff_ffff
  const U32_MAX := 0xffff_ffff

  datatype Attempt = Attempt(id: nat, started: Time)
  datatype Retry = Retry(failures: nat, busy: nat, after: Time)

  datatype State = State(connecting: map<Peer, Attempt>, connected: map<Peer, Time>, retry: map<Peer, Retry>,
                         nextAttempt: nat)

  function Shifted(n: nat): nat {
    if n == 0 then SHORTEST_BACK_OFF else 2 * Shifted(n - 1)
  }

  /** Doubles with each failure, from 15 seconds up to five minutes. */
  function BackOffDelay(failures: nat): nat {
    var delay := Shifted(if failures < 5 then failures else 5);
    if delay < LONGEST_BACK_OFF then delay else LONGEST_BACK_OFF
  }

  lemma {:induction false} ShiftedAtLeast(n: nat)
    ensures Shifted(n) >= SHORTEST_BACK_OFF
  {
    if n > 0 {
      ShiftedAtLeast(n - 1);
    }
  }

  lemma BackOffBounds(failures: nat)
    ensures SHORTEST_BACK_OFF <= BackOffDelay(failures) <= LONGEST_BACK_OFF
  {
    ShiftedAtLeast(if failures < 5 then failures else 5);
  }

  function RetryOf(s: State, p: Peer, now: Time): Retry {
    if p in s.retry then s.retry[p] else Retry(0, 0, now)
  }

  function BackedOff(s: State, p: Peer, now: Time): State {
    var r := RetryOf(s, p, now);
    var failures := if r.failures < U32_MAX then r.failures + 1 else r.failures;
    s.(retry := s.retry[p := Retry(failures, r.busy, now + BackOffDelay(r.failures))])
  }

  predicate Stale(s: State, p: Peer, now: Time) {
    p in s.connecting && now >= s.connecting[p].started + STALE_CONNECT
  }

  /** A stale attempt is given up first. */
  function Swept(s: State, p: Peer, now: Time): State {
    if Stale(s, p, now) then BackedOff(s.(connecting := s.connecting - {p}), p, now) else s
  }

  predicate MayBegin(s: State, p: Peer, now: Time) {
    && p !in s.connected
    && p !in s.connecting
    && (p in s.retry ==> s.retry[p].after <= now)
    && s.nextAttempt < U64_MAX
  }

  function AfterBegin(s: State, p: Peer, now: Time): (State, Option<nat>) {
    var t := Swept(s, p, now);
    if !MayBegin(t, p, now) then (t, None)
    else
      (t.(connecting := t.connecting[p := Attempt(t.nextAttempt + 1, now)], nextAttempt := t.nextAttempt + 1),
       Some(t.nextAttempt + 1))
  }

  function AfterAccept(s: State, p: Peer, now: Time): State {
    var t := s.(connecting := s.connecting - {p});
    if p in s.connected then t else t.(connected := t.connected[p := now])
  }

  function AfterConnectFailed(s: State, p: Peer, attempt: nat, busy: bool, now: Time): State {
    if p !in s.connecting || s.connecting[p].id != attempt then s
    else
      var t := s.(connecting := s.connecting - {p});
      var r := RetryOf(t, p, now);
      if busy && r.busy < BUSY_RETRIES
      then t.(retry := t.retry[p := r.(busy := r.busy + 1, after := now + BUSY_DELAY)])
      else BackedOff(t, p, now)
  }

  predicate Long(s: State, p: Peer, now: Time) {
    p in s.connected && now >= s.connected[p] + LONG_STREAM
  }

  function AfterEnded(s: State, p: Peer, now: Time): State {
    if p !in s.connected then s
    else
      var t := s.(connected := s.connected - {p});
      BackedOff(if Long(s, p, now) then t.(retry := t.retry - {p}) else t, p, now)
  }

  function AfterReset(s: State, p: Peer): State {
    s.(retry := s.retry - {p}, connecting := s.connecting - {p})
  }

  class Links {
    var connecting: map<Peer, Attempt>
    var connected: map<Peer, Time>
    var retry: map<Peer, Retry>
    var nextAttempt: nat

    function View(): State
      reads this
    {
      State(connecting, connected, retry, nextAttempt)
    }

    constructor ()
      ensures View() == State(map[], map[], map[], 0)
    {
      connecting, connected, retry, nextAttempt := map[], map[], map[], 0;
    }

    method Begin(p: Peer, now: Time) returns (id: Option<nat>)
      modifies this
      ensures (View(), id) == AfterBegin(old(View()), p, now)
    {
      if p in connecting && now >= connecting[p].started + STALE_CONNECT {
        connecting := connecting - {p};
        BackOff(p, now);
      }
      if p in connected || p in connecting || (p in retry && retry[p].after > now) {
        return None;
      }
      if nextAttempt >= U64_MAX {
        return None;
      }
      nextAttempt := nextAttempt + 1;
      connecting := connecting[p := Attempt(nextAttempt, now)];
      id := Some(nextAttempt);
    }

    method Accept(p: Peer, now: Time) returns (accepted: bool)
      modifies this
      ensures View() == AfterAccept(old(View()), p, now)
      ensures accepted <==> p !in old(connected)
    {
      connecting := connecting - {p};
      if p in connected {
        return false;
      }
      connected := connected[p := now];
      accepted := true;
    }

    method ConnectFailed(p: Peer, attempt: nat, busy: bool, now: Time)
      modifies this
      ensures View() == AfterConnectFailed(old(View()), p, attempt, busy, now)
    {
      if p !in connecting || connecting[p].id != attempt {
        return;
      }
      connecting := connecting - {p};
      var r := RetryOf(View(), p, now);
      if busy && r.busy < BUSY_RETRIES {
        retry := retry[p := r.(busy := r.busy + 1, after := now + BUSY_DELAY)];
      } else {
        BackOff(p, now);
      }
    }

    method Ended(p: Peer, now: Time)
      modifies this
      ensures View() == AfterEnded(old(View()), p, now)
    {
      if p in connected {
        var start := connected[p];
        connected := connected - {p};
        if now >= start + LONG_STREAM {
          retry := retry - {p};
        }
        BackOff(p, now);
      }
    }

    method Reset(p: Peer)
      modifies this
      ensures View() == AfterReset(old(View()), p)
    {
      retry := retry - {p};
      connecting := connecting - {p};
    }

    method BackOff(p: Peer, now: Time)
      modifies this
      ensures View() == BackedOff(old(View()), p, now)
    {
      var r := RetryOf(View(), p, now);
      var failures := if r.failures < U32_MAX then r.failures + 1 else r.failures;
      retry := retry[p := Retry(failures, r.busy, now + BackOffDelay(r.failures))];
    }
  }

  // ---------------------------------------------------------------- runs

  datatype Grant = Grant(peer: Peer, id: nat, at: Time)

  /** The links, the readers that still have to report their end, and every attempt granted. */
  datatype System = System(links: State, readers: multiset<Peer>, grants: seq<Grant>, now: Time)

  const INITIAL := System(State(map[], map[], map[], 0), multiset{}, [], 0)

  datatype Event =
    | Begin(p: Peer)
    | Accept(p: Peer)
    | ConnectFailed(p: Peer, attempt: nat, busy: bool)
    | Ended(p: Peer)
    | Reset(p: Peer)

  /** An event and when it happens. */
  datatype Action = Action(event: Event, at: Time)

  /** An accepted stream gets one reader, which reports its end once. */
  predicate Enabled(s: System, a: Action) {
    a.at >= s.now && (a.event.Ended? ==> a.event.p in s.readers)
  }

  function Next(s: System, a: Action): System {
    if !Enabled(s, a) then s
    else
      match a.event
      case Begin(p) =>
        var (links, id) := AfterBegin(s.links, p, a.at);
        System(links, s.readers, s.grants + (if id.Some? then [Grant(p, id.value, a.at)] else []), a.at)
      case Accept(p) =>
        System(AfterAccept(s.links, p, a.at), if p in s.links.connected then s.readers else s.readers + multiset{p},
               s.grants, a.at)
      case ConnectFailed(p, attempt, busy) =>
        s.(links := AfterConnectFailed(s.links, p, attempt, busy, a.at), now := a.at)
      case Ended(p) => System(AfterEnded(s.links, p, a.at), s.readers - multiset{p}, s.grants, a.at)
      case Reset(p) => s.(links := AfterReset(s.links, p), now := a.at)
  }

  function RunFrom(s: System, actions: seq<Action>): System {
    if actions == [] then s else Next(RunFrom(s, actions[..|actions| - 1]), actions[|actions| - 1])
  }

  function Run(actions: seq<Action>): System {
    RunFrom(INITIAL, actions)
  }

  // ---------------------------------------------------------------- one reader, no stale results

  function LastGrant(grants: seq<Grant>, p: Peer): Option<nat> {
    if grants == [] then None
    else
      var last := grants[|grants| - 1];
      if last.peer == p then Some(last.id) else LastGrant(grants[..|grants| - 1], p)
  }

  predicate GrantsFresh(s: System) {
    Ascending(s.grants, s.links.nextAttempt)
  }

  predicate Ascending(grants: seq<Grant>, bound: nat) {
    && (forall i, j :: 0 <= i < j < |grants| ==> grants[i].id < grants[j].id)
    && (forall g <- grants :: g.id <= bound)
  }

  /** A peer has one reader if it is connected, and none otherwise; never both a stream and an attempt. */
  predicate PeerGood(s: System, p: Peer) {
    Consistent(s.links, p, s.readers[p], LastGrant(s.grants, p), s.now)
  }

  predicate Consistent(s: State, p: Peer, readers: nat, last: Option<nat>, now: Time) {
    && readers == (if p in s.connected then 1 else 0)
    && (p in s.connected ==> p !in s.connecting && s.connected[p] <= now)
    && (p in s.connecting ==> last == Some(s.connecting[p].id) && s.connecting[p].started <= now)
    && (p in s.retry ==> s.retry[p].busy <= BUSY_RETRIES)
  }

  ghost predicate Good(s: System) {
    GrantsFresh(s) && forall p :: PeerGood(s, p)
  }

  lemma LastGrantGrows(grants: seq<Grant>, g: Grant, p: Peer)
    ensures LastGrant(grants + [g], p) == if g.peer == p then Some(g.id) else LastGrant(grants, p)
  {
    assert (grants + [g])[..|grants|] == grants;
  }

  predicate SameFor(x: State, y: State, p: Peer) {
    && (p in x.connecting <==> p in y.connecting)
    && (p in x.connecting ==> x.connecting[p] == y.connecting[p])
    && (p in x.connected <==> p in y.connected)
    && (p in x.connected ==> x.connected[p] == y.connected[p])
    && (p in x.retry <==> p in y.retry)
    && (p in x.retry ==> x.retry[p] == y.retry[p])
  }

  /** Nothing about `p` changes but the clock. */
  predicate SamePeer(s: System, t: System, p: Peer) {
    && SameFor(s.links, t.links, p)
    && s.readers[p] == t.readers[p]
    && LastGrant(s.grants, p) == LastGrant(t.grants, p)
    && s.now <= t.now
  }

  lemma BeginSparesOthers(x: State, q: Peer, now: Time, p: Peer)
    requires p != q
    ensures SameFor(x, AfterBegin(x, q, now).0, p)
  {
  }

  lemma BeginLeavesOthers(s: System, a: Action, p: Peer)
    requires a.event.Begin? && a.event.p != p && Enabled(s, a)
    ensures SamePeer(s, Next(s, a), p)
  {
    BeginSparesOthers(s.links, a.event.p, a.at, p);
    LastGrantGrows(s.grants, Grant(a.event.p, s.links.nextAttempt + 1, a.at), p);
    assert s.grants + [] == s.grants;
  }

  lemma EventLeavesOthers(s: System, a: Action, p: Peer)
    requires !a.event.Begin? && a.event.p != p && Enabled(s, a)
    ensures SamePeer(s, Next(s, a), p)
  {
  }

  lemma OtherPeersSame(s: System, a: Action, p: Peer)
    requires a.event.p != p && Enabled(s, a)
    ensures SamePeer(s, Next(s, a), p)
  {
    if a.event.Begin? {
      BeginLeavesOthers(s, a, p);
    } else {
      EventLeavesOthers(s, a, p);
    }
  }

  lemma BeginKeepsConsistent(x: State, p: Peer, readers: nat, last: Option<nat>, before: Time, now: Time)
    requires Consistent(x, p, readers, last, before) && before <= now
    ensures var (y, id) := AfterBegin(x, p, now);
            Consistent(y, p, readers, if id.Some? then id else last, now)
  {
  }

  lemma BeginKeepsPeer(s: System, a: Action)
    requires PeerGood(s, a.event.p) && Enabled(s, a) && a.event.Begin?
    ensures PeerGood(Next(s, a), a.event.p)
  {
    var p := a.event.p;
    BeginKeepsConsistent(s.links, p, s.readers[p], LastGrant(s.grants, p), s.now, a.at);
    LastGrantGrows(s.grants, Grant(p, s.links.nextAttempt + 1, a.at), p);
    assert s.grants + [] == s.grants;
  }

  lemma NextKeepsPeer(s: System, a: Action, p: Peer)
    requires PeerGood(s, p) && Enabled(s, a)
    ensures PeerGood(Next(s, a), p)
  {
    if a.event.p != p {
      OtherPeersSame(s, a, p);
    } else if a.event.Begin? {
      BeginKeepsPeer(s, a);
    }
  }

  lemma AscendingGrows(grants: seq<Grant>, g: Grant, bound: nat)
    requires Ascending(grants, bound) && g.id == bound + 1
    ensures Ascending(grants + [g], bound + 1)
  {
  }

  lemma BeginKeepsFresh(s: System, a: Action)
    requires GrantsFresh(s) && a.event.Begin? && Enabled(s, a)
    ensures GrantsFresh(Next(s, a))
  {
    AscendingGrows(s.grants, Grant(a.event.p, s.links.nextAttempt + 1, a.at), s.links.nextAttempt);
    assert s.grants + [] == s.grants;
  }

  lemma NextKeepsFresh(s: System, a: Action)
    requires GrantsFresh(s) && Enabled(s, a)
    ensures GrantsFresh(Next(s, a))
  {
    if a.event.Begin? {
      BeginKeepsFresh(s, a);
    }
  }

  lemma NextKeeps(s: System, a: Action)
    requires Good(s)
    ensures Good(Next(s, a))
  {
    if Enabled(s, a) {
      NextKeepsFresh(s, a);
      forall p ensures PeerGood(Next(s, a), p) {
        NextKeepsPeer(s, a, p);
      }
    }
  }

  /** The invariant holds after every interleaving. */
  lemma {:induction false} RunGood(actions: seq<Action>)
    ensures Good(Run(actions))
  {
    if actions != [] {
      RunGood(actions[..|actions| - 1]);
      NextKeeps(Run(actions[..|actions| - 1]), actions[|actions| - 1]);
    }
  }

  /** At most one reader serves a peer, exactly while the peer is connected, and no attempt is then pending. */
  lemma AtMostOneReader(actions: seq<Action>, p: Peer)
    ensures var s := Run(actions);
            && s.readers[p] <= 1
            && (s.readers[p] == 1 <==> p in s.links.connected)
            && (s.readers[p] == 1 ==> p !in s.links.connecting)
  {
    RunGood(actions);
    assert PeerGood(Run(actions), p);
  }

  lemma {:induction false} LastGrantIsLast(grants: seq<Grant>, j: nat)
    requires j < |grants|
    requires forall i, k :: 0 <= i < k < |grants| ==> grants[i].id < grants[k].id
    ensures LastGrant(grants, grants[j].peer).Some? && LastGrant(grants, grants[j].peer).value >= grants[j].id
  {
    var n := |grants| - 1;
    if j < n {
      LastGrantIsLast(grants[..n], j);
      assert grants[j].id < grants[n].id;
    }
  }

  lemma {:induction false} LastGrantBelongs(grants: seq<Grant>, p: Peer) returns (k: nat)
    requires LastGrant(grants, p).Some?
    ensures k < |grants| && grants[k].peer == p && grants[k].id == LastGrant(grants, p).value
  {
    k := |grants| - 1;
    if grants[k].peer != p {
      k := LastGrantBelongs(grants[..|grants| - 1], p);
    }
  }

  /**
   A result that comes too late changes nothing: neither for a later attempt on the same peer,
   nor for another peer, nor once the attempt is over.
   */
  lemma LateResultIgnored(actions: seq<Action>, i: nat, p: Peer, busy: bool, now: Time)
    requires i < |Run(actions).grants|
    requires var s := Run(actions); var g := s.grants[i];
             || p != g.peer
             || p !in s.links.connecting
             || exists j :: i < j < |s.grants| && s.grants[j].peer == p
    ensures AfterConnectFailed(Run(actions).links, p, Run(actions).grants[i].id, busy, now) == Run(actions).links
  {
    var s := Run(actions);
    RunGood(actions);
    assert PeerGood(s, p);
    if p in s.links.connecting {
      var k := LastGrantBelongs(s.grants, p);
      if p == s.grants[i].peer {
        var j :| i < j < |s.grants| && s.grants[j].peer == p;
        LastGrantIsLast(s.grants, j);
      }
    }
  }

  // ---------------------------------------------------------------- the rate of attempts

  function Counted(c: Tally, s: System, a: Action, p: Peer): Tally {
    Count(c, Enabled(s, a) && a.event == Begin(p) && AfterBegin(s.links, p, a.at).1.Some?, a.at)
  }

  function TallyFrom(s: System, actions: seq<Action>, p: Peer): Tally {
    if actions == [] then NONE_GRANTED
    else
      var n := |actions| - 1;
      Counted(TallyFrom(s, actions[..n], p), RunFrom(s, actions[..n]), actions[n], p)
  }

  /** Neither a reset of the peer nor the end of a stream that stayed up for a minute. */
  predicate Unforgiven(s: System, a: Action, p: Peer) {
    && a.event != Reset(p)
    && !(a.event == Ended(p) && Long(s.links, p, a.at))
  }

  predicate NeverForgiven(s: System, actions: seq<Action>, p: Peer) {
    forall i :: 0 <= i < |actions| ==> Unforgiven(RunFrom(s, actions[..i]), actions[i], p)
  }

  function Busy(s: State, p: Peer): nat {
    if p in s.retry then s.retry[p].busy else 0
  }

  /** Every grant but the first, and those paid from the busy budget, took 15 seconds. */
  predicate Paced(s: System, c: Tally, p: Peer, busy: nat) {
    && busy <= Busy(s.links, p)
    && (c.grants > 0 ==>
        var used := Busy(s.links, p) - busy;
        && c.first <= c.last <= s.now
        && SHORTEST_BACK_OFF * (c.grants - 1 - used) <= c.last - c.first
        && (p !in s.links.connecting && p !in s.links.connected ==>
            p in s.links.retry && SHORTEST_BACK_OFF * (c.grants - used) <= s.links.retry[p].after - c.first))
  }

  lemma OtherPeersPaced(s: System, a: Action, c: Tally, p: Peer, busy: nat)
    requires Paced(s, c, p, busy) && Enabled(s, a) && a.event.p != p
    ensures Paced(Next(s, a), Counted(c, s, a, p), p, busy)
  {
    OtherPeersSame(s, a, p);
  }

  lemma BeginKeepsPace(s: System, a: Action, c: Tally, busy: nat)
    requires PeerGood(s, a.event.p) && Enabled(s, a) && a.event.Begin?
    requires Paced(s, c, a.event.p, busy)
    ensures Paced(Next(s, a), Counted(c, s, a, a.event.p), a.event.p, busy)
  {
    BackOffBounds(RetryOf(s.links, a.event.p, a.at).failures);
  }

  lemma NextKeepsPace(s: System, a: Action, c: Tally, p: Peer, busy: nat)
    requires PeerGood(s, p) && Paced(s, c, p, busy) && Unforgiven(s, a, p)
    ensures Paced(Next(s, a), Counted(c, s, a, p), p, busy)
  {
    if Enabled(s, a) {
      if a.event.p != p {
        OtherPeersPaced(s, a, c, p, busy);
      } else if a.event.Begin? {
        BeginKeepsPace(s, a, c, busy);
      } else {
        BackOffBounds(RetryOf(s.links, p, a.at).failures);
      }
    }
  }

  lemma {:induction false} RunFromAppend(s: System, a: seq<Action>, b: seq<Action>)
    ensures RunFrom(s, a + b) == RunFrom(RunFrom(s, a), b)
  {
    if b == [] {
      assert a + b == a;
    } else {
      assert (a + b)[..|a + b| - 1] == a + b[..|b| - 1];
      RunFromAppend(s, a, b[..|b| - 1]);
    }
  }

  lemma {:induction false} RunKeepsPace(before: seq<Action>, actions: seq<Action>, p: Peer)
    requires NeverForgiven(Run(before), actions, p)
    ensures Good(RunFrom(Run(before), actions))
    ensures Paced(RunFrom(Run(before), actions), TallyFrom(Run(before), actions, p), p, Busy(Run(before).links, p))
  {
    var s := Run(before);
    RunFromAppend(INITIAL, before, actions);
    RunGood(before + actions);
    if actions != [] {
      var n := |actions| - 1;
      var earlier := actions[..n];
      assert forall i :: 0 <= i < n ==> earlier[..i] == actions[..i];
      RunKeepsPace(before, earlier, p);
      assert PeerGood(RunFrom(s, earlier), p);
      NextKeepsPace(RunFrom(s, earlier), actions[n], TallyFrom(s, earlier, p), p, Busy(s.links, p));
    }
  }

  /**
   In any part of any run without a reset of the peer and without a stream that stayed up for
   a minute, at most 7 + T / 15 attempts are granted to the peer in T seconds.
   */
  lemma AttemptRateBounded(before: seq<Action>, actions: seq<Action>, p: Peer)
    requires NeverForgiven(Run(before), actions, p)
    ensures SHORTEST_BACK_OFF * TallyFrom(Run(before), actions, p).grants
         <= SHORTEST_BACK_OFF * (BUSY_RETRIES + 1) + RunFrom(Run(before), actions).now - Run(before).now
  {
    RunKeepsPace(before, actions, p);
    FirstAfterStart(Run(before), actions, p);
    assert PeerGood(RunFrom(Run(before), actions), p);
  }

  lemma {:induction false} FirstAfterStart(s: System, actions: seq<Action>, p: Peer)
    ensures s.now <= RunFrom(s, actions).now
    ensures TallyFrom(s, actions, p).grants > 0 ==> s.now <= TallyFrom(s, actions, p).first
  {
    if actions != [] {
      FirstAfterStart(s, actions[..|actions| - 1], p);
    }
  }
}
