/**
 Signal strength of connected links (src/bluez/link_signal.rs): epochs and fences decide whether a
 reading still counts, and ageing decides whether it is live. Times are milliseconds.
 */
module LinkSignals {
  import opened Wrappers

  /** Clock readings; an earlier point may lie before the clock's origin. */
  type Time = int

  const FAILURE_BACKOFF := 30_000
  const LIVE_TTL := 12_000
  const CACHE_TTL := 300_000
  const U64_LIMIT := 0x1_0000_0000_0000_0000

  datatype Key = Key(adapter: string, address: string)

  datatype Sample = Sample(rssi: int, kind: string, lastSeen: nat)

  datatype Reading = Reading(sample: Sample, live: bool)

  datatype Entry = Entry(sample: Option<Sample>, observed: Time, attempted: Time, succeeded: bool)

  datatype State = State(entries: map<Key, Entry>, epoch: nat, devices: set<Key>, adapters: set<string>)

  function Get(s: State, key: Key, connected: bool, now: Time): Option<Reading> {
    if key !in s.entries || s.entries[key].sample.None? || now - s.entries[key].observed > CACHE_TTL then None
    else
      var e := s.entries[key];
      Some(Reading(e.sample.value, connected && e.succeeded && now - e.observed <= LIVE_TTL))
  }

  predicate Covers(adapter: string, address: Option<string>, key: Key) {
    key.adapter == adapter && (address.Some? ==> key.address == address.value)
  }

  function Doubted(e: Entry, now: Time): Entry {
    e.(succeeded := false, attempted := now - FAILURE_BACKOFF)
  }

  function AfterInvalidate(s: State, adapter: string, address: Option<string>, now: Time): State {
    s.(devices := if address.Some? then s.devices + {Key(adapter, address.value)} else s.devices,
       adapters := if address.Some? then s.adapters else s.adapters + {adapter},
       entries := map k | k in s.entries ::
                    if Covers(adapter, address, k) then Doubted(s.entries[k], now) else s.entries[k])
  }

  // The epoch wraps.
  function NextEpoch(epoch: nat): nat {
    (epoch + 1) % U64_LIMIT
  }

  function AfterSuspend(s: State, now: Time): State {
    s.(epoch := NextEpoch(s.epoch), entries := map k | k in s.entries :: Doubted(s.entries[k], now))
  }

  function AfterBeginPoll(s: State): State {
    s.(epoch := NextEpoch(s.epoch), devices := {}, adapters := {})
  }

  predicate Fenced(s: State, key: Key) {
    key in s.devices || key.adapter in s.adapters
  }

  predicate Current(s: State, key: Key, token: nat) {
    token == s.epoch && !Fenced(s, key)
  }

  predicate Due(s: State, key: Key, now: Time) {
    key in s.entries ==> s.entries[key].succeeded || now - s.entries[key].attempted >= FAILURE_BACKOFF
  }

  /** A reading without a sample is noted as an attempt; what was sampled before keeps its age. */
  function AfterAccept(s: State, key: Key, token: nat, sample: Option<Sample>, now: Time): State {
    if !Current(s, key, token) then s
    else
      var e := if key in s.entries then s.entries[key] else Entry(None, now, now, false);
      s.(entries := s.entries[key := if sample.Some? then Entry(sample, now, now, true)
                                     else e.(attempted := now, succeeded := false)])
  }

  function Aged(e: Entry, now: Time): Entry {
    if now - e.observed > CACHE_TTL then e.(sample := None) else e
  }

  function AfterAgeing(s: State, now: Time): State {
    s.(entries := map k | k in s.entries && now - s.entries[k].attempted <= CACHE_TTL :: Aged(s.entries[k], now))
  }

  class Signals {
    var entries: map<Key, Entry>
    var epoch: nat
    var devices: set<Key>
    var adapters: set<string>

    function View(): State
      reads this
    {
      State(entries, epoch, devices, adapters)
    }

    constructor ()
      ensures View() == State(map[], 0, {}, {})
    {
      entries, epoch, devices, adapters := map[], 0, {}, {};
    }

    method GetReading(key: Key, connected: bool, now: Time) returns (r: Option<Reading>)
      ensures r == Get(View(), key, connected, now)
    {
      if key !in entries {
        return None;
      }
      var entry := entries[key];
      if entry.sample.None? || now - entry.observed > CACHE_TTL {
        return None;
      }
      r := Some(Reading(entry.sample.value, connected && entry.succeeded && now - entry.observed <= LIVE_TTL));
    }

    method Invalidate(adapter: string, address: Option<string>, now: Time)
      modifies this
      ensures View() == AfterInvalidate(old(View()), adapter, address, now)
    {
      if address.Some? {
        devices := devices + {Key(adapter, address.value)};
      } else {
        adapters := adapters + {adapter};
      }
      entries := map k | k in entries :: if Covers(adapter, address, k) then Doubted(entries[k], now) else entries[k];
    }

    method Suspend(now: Time)
      modifies this
      ensures View() == AfterSuspend(old(View()), now)
    {
      epoch := NextEpoch(epoch);
      entries := map k | k in entries :: Doubted(entries[k], now);
    }

    method BeginPoll() returns (token: nat)
      modifies this
      ensures View() == AfterBeginPoll(old(View())) && token == epoch
    {
      epoch := NextEpoch(epoch);
      devices, adapters := {}, {};
      token := epoch;
    }

    method Accept(key: Key, token: nat, sample: Option<Sample>, now: Time)
      modifies this
      ensures View() == AfterAccept(old(View()), key, token, sample, now)
    {
      if token != epoch || key in devices || key.adapter in adapters {
        return;
      }
      var entry := if key in entries then entries[key] else Entry(None, now, now, false);
      entry := entry.(attempted := now, succeeded := sample.Some?);
      if sample.Some? {
        entry := entry.(observed := now, sample := sample);
      }
      entries := entries[key := entry];
    }

    method Age(now: Time)
      modifies this
      ensures View() == AfterAgeing(old(View()), now)
    {
      entries := map k | k in entries && now - entries[k].attempted <= CACHE_TTL :: Aged(entries[k], now);
    }
  }

  // ---------------------------------------------------------------- runs

  datatype Event =
    | BeginPoll
    | Suspend
    | Invalidate(adapter: string, address: Option<string>)
    | Accept(key: Key, token: nat, sample: Option<Sample>)
    | Age

  datatype Action = Action(event: Event, at: Time)

  const INITIAL := State(map[], 0, {}, {})

  function Next(s: State, a: Action): State {
    match a.event
    case BeginPoll => AfterBeginPoll(s)
    case Suspend => AfterSuspend(s, a.at)
    case Invalidate(adapter, address) => AfterInvalidate(s, adapter, address, a.at)
    case Accept(key, token, sample) => AfterAccept(s, key, token, sample, a.at)
    case Age => AfterAgeing(s, a.at)
  }

  function Run(log: seq<Action>): State {
    if log == [] then INITIAL else Next(Run(log[..|log| - 1]), log[|log| - 1])
  }

  predicate Ordered(log: seq<Action>) {
    forall i, j :: 0 <= i < j < |log| ==> log[i].at <= log[j].at
  }

  // ---------------------------------------------------------------- tokens

  predicate Bumps(a: Action) {
    a.event.BeginPoll? || a.event.Suspend?
  }

  predicate Covering(a: Action, key: Key) {
    a.event.Invalidate? && Covers(a.event.adapter, a.event.address, key)
  }

  function CountBumps(log: seq<Action>): (n: nat)
    ensures n <= |log|
  {
    if log == [] then 0 else CountBumps(log[..|log| - 1]) + if Bumps(log[|log| - 1]) then 1 else 0
  }

  /** The token handed out by the poll at position `i`. */
  function Token(log: seq<Action>, i: nat): nat
    requires i < |log|
  {
    Run(log[..i + 1]).epoch
  }

  /** Nothing since the poll at `i` has retired its token for `key`. */
  predicate Undisturbed(log: seq<Action>, i: nat, key: Key) {
    forall j :: i < j < |log| ==> !Bumps(log[j]) && !Covering(log[j], key)
  }

  lemma EpochAdvances(s: State, a: Action)
    ensures Next(s, a).epoch == if Bumps(a) then NextEpoch(s.epoch) else s.epoch
  {
  }

  lemma {:induction false} EpochCounts(log: seq<Action>)
    ensures Run(log).epoch == CountBumps(log) % U64_LIMIT
  {
    if log != [] {
      var n := |log| - 1;
      EpochCounts(log[..n]);
      EpochAdvances(Run(log[..n]), log[n]);
      NextResidue(CountBumps(log[..n]));
    }
  }

  lemma NextResidue(n: nat)
    ensures NextEpoch(n % U64_LIMIT) == (n + 1) % U64_LIMIT
  {
  }

  lemma FencesGrow(s: State, a: Action, key: Key)
    requires !Bumps(a)
    ensures Fenced(Next(s, a), key) <==> Fenced(s, key) || Covering(a, key)
  {
  }

  /** While the token of the poll at `i` is not retired, the fences are the invalidations since. */
  lemma {:induction false} FencesSince(log: seq<Action>, i: nat, key: Key)
    requires i < |log| && log[i].event.BeginPoll?
    requires forall j :: i < j < |log| ==> !Bumps(log[j])
    ensures Fenced(Run(log), key) <==> exists j :: i < j < |log| && Covering(log[j], key)
  {
    var n := |log| - 1;
    if i < n {
      FencesSince(log[..n], i, key);
      FencesGrow(Run(log[..n]), log[n], key);
      assert forall j :: i < j < n ==> log[..n][j] == log[j];
    }
  }

  lemma {:induction false} BumpsSince(log: seq<Action>, i: nat)
    requires i < |log|
    ensures CountBumps(log) >= CountBumps(log[..i + 1])
    ensures CountBumps(log) == CountBumps(log[..i + 1]) <==> forall j :: i < j < |log| ==> !Bumps(log[j])
  {
    var n := |log| - 1;
    if i < n {
      BumpsSince(log[..n], i);
      assert log[..n][..i + 1] == log[..i + 1];
      assert forall j :: i < j < n ==> log[..n][j] == log[j];
    } else {
      assert log[..i + 1] == log;
    }
  }

  lemma ResiduesDiffer(a: nat, b: nat)
    requires a < b < a + U64_LIMIT
    ensures a % U64_LIMIT != b % U64_LIMIT
  {
  }

  /**
   A reading with the token of the poll at `i` counts exactly if no later poll, no suspension and no
   invalidation of its device or adapter has happened since (short of a full turn of the epoch).
   */
  lemma TokenCurrentIff(log: seq<Action>, i: nat, key: Key)
    requires i < |log| && log[i].event.BeginPoll?
    requires CountBumps(log) < CountBumps(log[..i + 1]) + U64_LIMIT
    ensures Current(Run(log), key, Token(log, i)) <==> Undisturbed(log, i, key)
  {
    EpochCounts(log);
    EpochCounts(log[..i + 1]);
    BumpsSince(log, i);
    if forall j :: i < j < |log| ==> !Bumps(log[j]) {
      FencesSince(log, i, key);
    } else {
      ResiduesDiffer(CountBumps(log[..i + 1]), CountBumps(log));
    }
  }

  /** An offered reading is entered exactly if its token is current; otherwise nothing at all changes. */
  lemma AcceptedIff(log: seq<Action>, i: nat, key: Key, sample: Option<Sample>, now: Time)
    requires i < |log| && log[i].event.BeginPoll?
    requires CountBumps(log) < CountBumps(log[..i + 1]) + U64_LIMIT
    ensures var s := Run(log); var t := AfterAccept(s, key, Token(log, i), sample, now);
            if Undisturbed(log, i, key)
            then key in t.entries && t.entries[key].attempted == now && t.entries[key].succeeded == sample.Some?
                 && (sample.Some? ==> t.entries[key].sample == sample && t.entries[key].observed == now)
                 && (sample.None? && key in s.entries ==> t.entries[key].sample == s.entries[key].sample)
            else t == s
  {
    TokenCurrentIff(log, i, key);
  }

  // ---------------------------------------------------------------- liveness

  /** The action at `i` enters a reading for `key`, failed or not. */
  predicate Enters(log: seq<Action>, i: nat, key: Key)
    requires i < |log|
  {
    log[i].event.Accept? && log[i].event.key == key && Current(Run(log[..i]), key, log[i].event.token)
  }

  predicate Succeeds(log: seq<Action>, i: nat, key: Key)
    requires i < |log|
  {
    Enters(log, i, key) && log[i].event.sample.Some?
  }

  /** The action at `i` ends the liveness of whatever was read before. */
  predicate Ends(log: seq<Action>, i: nat, key: Key)
    requires i < |log|
  {
    log[i].event.Suspend? || Covering(log[i], key) || (Enters(log, i, key) && log[i].event.sample.None?)
  }

  /** The last successful reading of `key`, unless something has ended it. */
  ghost predicate Standing(log: seq<Action>, i: nat, key: Key) {
    i < |log| && Succeeds(log, i, key) && forall j :: i < j < |log| ==> !Ends(log, j, key) && !Enters(log, j, key)
  }

  lemma PrefixSame(log: seq<Action>, n: nat, i: nat, key: Key)
    requires i < n <= |log|
    ensures Enters(log[..n], i, key) == Enters(log, i, key)
    ensures Ends(log[..n], i, key) == Ends(log, i, key)
  {
    assert log[..n][..i] == log[..i];
  }

  lemma StandingExtends(log: seq<Action>, i: nat, key: Key)
    requires i < |log| - 1
    ensures Standing(log, i, key)
       <==> Standing(log[..|log| - 1], i, key) && !Ends(log, |log| - 1, key) && !Enters(log, |log| - 1, key)
  {
    var n := |log| - 1;
    forall j | 0 <= j < n
      ensures Enters(log[..n], j, key) == Enters(log, j, key) && Ends(log[..n], j, key) == Ends(log, j, key)
    {
      PrefixSame(log, n, j, key);
    }
  }

  /** The entry records the standing success, and ageing removes it only long after it has ceased to be live. */
  lemma {:induction false} StandingRecorded(log: seq<Action>, i: nat, key: Key, now: Time)
    requires Ordered(log) && Standing(log, i, key)
    requires now >= log[|log| - 1].at && now - log[i].at <= LIVE_TTL
    ensures var s := Run(log);
            key in s.entries
            && s.entries[key] == Entry(log[i].event.sample, log[i].at, log[i].at, true)
  {
    var n := |log| - 1;
    if i < n {
      StandingExtends(log, i, key);
      StandingRecorded(log[..n], i, key, now);
      assert log[i].at <= log[n].at;
    }
  }

  lemma SucceededStep(s: State, a: Action, key: Key)
    requires key in Next(s, a).entries && Next(s, a).entries[key].succeeded
    ensures a.event.Accept? && a.event.key == key && Current(s, key, a.event.token)
            ==> a.event.sample.Some? && Next(s, a).entries[key].observed == a.at
    ensures !(a.event.Accept? && a.event.key == key && Current(s, key, a.event.token))
            ==> !a.event.Suspend? && !Covering(a, key) && key in s.entries && s.entries[key].succeeded
                && s.entries[key].observed == Next(s, a).entries[key].observed
  {
  }

  /** Conversely, an entry marked as succeeded goes back to a standing success. */
  lemma {:induction false} SucceededStands(log: seq<Action>, key: Key) returns (i: nat)
    requires key in Run(log).entries && Run(log).entries[key].succeeded
    ensures Standing(log, i, key) && log[i].at == Run(log).entries[key].observed
  {
    var n := |log| - 1;
    SucceededStep(Run(log[..n]), log[n], key);
    if Enters(log, n, key) {
      i := n;
    } else {
      i := SucceededStands(log[..n], key);
      PrefixSame(log, n, i, key);
      StandingExtends(log, i, key);
    }
  }

  /**
   A reading is shown as live exactly while the device is connected and its last reading entered was
   a success at most twelve seconds ago, with no suspension and no invalidation of it since.
   */
  lemma LiveIff(log: seq<Action>, key: Key, connected: bool, now: Time)
    requires Ordered(log) && (log != [] ==> now >= log[|log| - 1].at)
    ensures var r := Get(Run(log), key, connected, now);
            r.Some? && r.value.live <==>
            connected && exists i: nat :: Standing(log, i, key) && now - log[i].at <= LIVE_TTL
  {
    var s := Run(log);
    if connected && key in s.entries && s.entries[key].succeeded && now - s.entries[key].observed <= LIVE_TTL {
      var i := SucceededStands(log, key);
      StandingRecorded(log, i, key, now);
    }
    forall i: nat | Standing(log, i, key) && now - log[i].at <= LIVE_TTL
      ensures key in s.entries && s.entries[key] == Entry(log[i].event.sample, log[i].at, log[i].at, true)
    {
      StandingRecorded(log, i, key, now);
    }
  }

  /** After an invalidation or a suspension the next poll may ask again at once. */
  lemma DisturbedIsDue(s: State, a: Action, key: Key, now: Time)
    requires now >= a.at && (a.event.Suspend? || Covering(a, key))
    ensures Due(Next(s, a), key, now)
  {
  }
}
