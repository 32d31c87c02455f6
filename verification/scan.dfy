/**
 Scan leases that share adapters (src/daemon/scan.rs). `ScanCoordinator` performs one transition
 at a time against a backend whose calls may fail half-way; the invariants speak about every
 sequence of transitions.
 */
module Scans {
  import opened Wrappers
  import opened Collections
  import opened Sorting
  import opened Discovery

  type Id = nat

  // ---------------------------------------------------------------- the backend

  type StopCalls = Key -> StopCall

  /** What a start amounts to: the adapters it left on although it failed, or those it switched on and reported. */
  datatype StartCall =
    | Refused(leftOn: set<Key>)
    | Reported(on: set<Key>, keys: seq<Key>, rolledBack: bool)

  /** The adapters that a snapshot shows powered and discovering. */
  function PoweredKeys(snapshot: Snapshot): seq<Key> {
    if snapshot == [] then []
    else
      var last := snapshot[|snapshot| - 1];
      PoweredKeys(snapshot[..|snapshot| - 1]) + if last.powered && last.discovering then [last.key] else []
  }

  function CallOf(on: set<Key>, requested: Option<Key>, answers: Answers): StartCall {
    var (after, ok) := Switched(on, requested, answers.adapters);
    if !ok || answers.snapshot.Err? then Refused(after - on)
    else Reported(after - on, PoweredKeys(answers.snapshot.value), requested == None || answers.rollback.Stops())
  }

  /** What remains switched on after trying to stop `keys`. */
  function AfterStops(discovering: set<Key>, keys: set<Key>, calls: StopCalls): set<Key> {
    set k | k in discovering && !(k in keys && calls(k).Stops())
  }

  /** Every stop succeeded; with nothing to stop, reading a snapshot did. */
  predicate AllStopped(keys: set<Key>, calls: StopCalls, read: Reply) {
    (forall k <- keys :: calls(k).Done?) && (keys == {} ==> read.Ok?)
  }

  // ---------------------------------------------------------------- leases

  /** `announced` tells whether the lease's timer has published its outcome. */
  datatype Lease = Lease(owner: string, requested: Option<Key>, adapters: seq<Key>, announced: bool)

  datatype Notice = Started | Completed | Failure | Ended(cause: string)

  datatype Event = Event(id: Id, notice: Notice)

  predicate Selects(id: Id, lease: Lease, request: Option<Id>, owner: Option<string>) {
    (request == None || request == Some(id)) && (owner == None || owner == Some(lease.owner))
  }

  function Selected(leases: map<Id, Lease>, request: Option<Id>, owner: Option<string>): set<Id> {
    set id | id in leases && Selects(id, leases[id], request, owner)
  }

  /** The adapters leased by `ids`. */
  function HeldBy(leases: map<Id, Lease>, ids: set<Id>): set<Key> {
    set id, k | id in ids && id in leases && k in leases[id].adapters :: k
  }

  function Held(leases: map<Id, Lease>): set<Key> {
    HeldBy(leases, leases.Keys)
  }

  /** The adapters leased by `ids` and by nobody else. */
  function Surplus(leases: map<Id, Lease>, ids: set<Id>): set<Key> {
    HeldBy(leases, ids) - HeldBy(leases, leases.Keys - ids)
  }

  /** `keys` in ascending order. */
  ghost predicate Listing(s: seq<Key>, keys: set<Key>) {
    && Sorted(s, NotAfter)
    && (Distinct(s))
    && (forall k :: k in s <==> k in keys)
  }

  datatype State = State(leases: map<Id, Lease>, sequence: nat, discovering: set<Key>, sent: seq<Event>)

  function EndEvents(ids: seq<Id>, cause: string): (events: seq<Event>)
    ensures |events| == |ids|
  {
    seq(|ids|, i requires 0 <= i < |ids| => Event(ids[i], Ended(cause)))
  }

  method ListKeys(keys: set<Key>) returns (s: seq<Key>)
    ensures Listing(s, keys)
  {
    s := [];
    var rest := keys;
    while rest != {}
      invariant rest <= keys
      invariant forall k :: k in s <==> k in keys - rest
      invariant Sorted(s, NotAfter)
      invariant Distinct(s)
      decreases |rest|
    {
      var k :| k in rest;
      s := InsertKey(k, s);
      rest := rest - {k};
    }
  }

  method InsertKey(k: Key, s: seq<Key>) returns (r: seq<Key>)
    requires Sorted(s, NotAfter) && k !in s
    requires Distinct(s)
    ensures Sorted(r, NotAfter)
    ensures Distinct(r)
    ensures forall x :: x in r <==> x == k || x in s
  {
    StringOrder();
    InsertSorted(k, s, NotAfter);
    r := Insert(k, s, NotAfter);
    assert forall x :: x in r <==> x in multiset(r);
    DistinctFromCounts(k, s, r);
  }

  lemma DistinctFromCounts(k: Key, s: seq<Key>, r: seq<Key>)
    requires multiset(r) == multiset(s) + multiset{k} && k !in s
    requires Distinct(s)
    ensures Distinct(r)
  {
    forall i, j | 0 <= i < j < |r| ensures r[i] != r[j] {
      if r[i] == r[j] {
        CountTwice(r, i, j);
        CountOnce(s, r[i]);
      }
    }
  }

  /** The order in which adapters are stopped, and so the error reported, is determined by the set of adapters. */
  lemma ListingUnique(s: seq<Key>, t: seq<Key>, keys: set<Key>)
    requires Listing(s, keys) && Listing(t, keys)
    ensures s == t
  {
    StringOrder();
    forall x ensures multiset(s)[x] == multiset(t)[x] {
      CountOnce(s, x);
      CountOnce(t, x);
      assert x in s <==> x in multiset(s);
      assert x in t <==> x in multiset(t);
    }
    assert multiset(s) == multiset(t);
    SortedUnique(s, t, NotAfter);
  }

  /** `ids` lists the leases that a stop selects. */
  ghost predicate ListsSelected(ids: seq<Id>, leases: map<Id, Lease>, request: Option<Id>, owner: Option<string>) {
    Distinct(ids) && forall id :: id in ids <==> id in Selected(leases, request, owner)
  }

  /** The selected leases, and the adapters that none of the others holds. */
  method SelectScans(leases: map<Id, Lease>, request: Option<Id>, owner: Option<string>)
    returns (ids: seq<Id>, adapters: seq<Key>)
    ensures ListsSelected(ids, leases, request, owner)
    ensures Listing(adapters, Surplus(leases, Selected(leases, request, owner)))
  {
    ids := [];
    var retained, held := {}, {};
    var pending := leases.Keys;
    ghost var chosen, others: set<Id> := {}, {};
    while pending != {}
      invariant pending <= leases.Keys
      invariant forall x :: x in chosen <==> x in leases && x !in pending && Selects(x, leases[x], request, owner)
      invariant forall x :: x in others <==> x in leases && x !in pending && x !in chosen
      invariant Distinct(ids) && forall id :: id in ids <==> id in chosen
      invariant held == HeldBy(leases, chosen)
      invariant retained == HeldBy(leases, others)
      decreases |pending|
    {
      var id :| id in pending;
      pending := pending - {id};
      var adapters := ToSet(leases[id].adapters);
      if Selects(id, leases[id], request, owner) {
        HeldByOneMore(leases, chosen, id);
        DistinctAppend(ids, id);
        ids, held := ids + [id], held + adapters;
        chosen := chosen + {id};
      } else {
        HeldByOneMore(leases, others, id);
        retained := retained + adapters;
        others := others + {id};
      }
    }
    assert chosen == Selected(leases, request, owner);
    assert others == leases.Keys - chosen;
    adapters := ListKeys(held - retained);
  }

  lemma DistinctAppend<T>(s: seq<T>, x: T)
    requires Distinct(s) && x !in s
    ensures Distinct(s + [x])
    ensures forall y :: y in s + [x] <==> y in s || y == x
  {
  }

  lemma HeldByOneMore(leases: map<Id, Lease>, ids: set<Id>, id: Id)
    requires id in leases
    ensures HeldBy(leases, ids + {id}) == HeldBy(leases, ids) + ToSet(leases[id].adapters)
  {
  }

  /** The reply to stopping `adapters` in order: the first error, or else the last snapshot. */
  ghost predicate Replies(adapters: seq<Key>, calls: StopCalls, read: Reply, r: Reply) {
    if adapters == [] then r == read
    else match r
      case Ok(snapshot) =>
        (forall k <- adapters :: calls(k).Done?) && calls(adapters[|adapters| - 1]).snapshot == snapshot
      case Err(error) =>
        exists i :: 0 <= i < |adapters| && FailsWith(calls(adapters[i]), error)
                    && forall j :: 0 <= j < i ==> calls(adapters[j]).Done?
  }

  predicate FailsWith(call: StopCall, error: string) {
    call.Failed? && call.error == error
  }

  /** Attempts every adapter, whatever fails. */
  method StopAdapters(backend: Backend, adapters: seq<Key>, calls: StopCalls, read: Reply)
    returns (r: Reply)
    modifies backend
    ensures backend.discovering == AfterStops(old(backend.discovering), ToSet(adapters), calls)
    ensures Replies(adapters, calls, read, r)
    ensures r.Ok? <==> AllStopped(ToSet(adapters), calls, read)
  {
    r := read;
    ghost var first := 0;
    for i := 0 to |adapters|
      invariant backend.discovering == AfterStops(old(backend.discovering), ToSet(adapters[..i]), calls)
      invariant i == 0 ==> r == read
      invariant i > 0 && r.Ok? ==> calls(adapters[i - 1]) == Done(r.value) && first == i
      invariant i > 0 && r.Err? ==> first < i && FailsWith(calls(adapters[first]), r.error)
      invariant first <= i && forall j :: 0 <= j < first ==> calls(adapters[j]).Done?
    {
      var current := backend.SwitchOff(adapters[i], calls(adapters[i]));
      assert ToSet(adapters[..i + 1]) == ToSet(adapters[..i]) + {adapters[i]};
      if i == 0 || r.Ok? {
        r := current;
        first := if r.Ok? then i + 1 else i;
      }
    }
    assert adapters[..|adapters|] == adapters;
    assert adapters != [] ==> adapters[0] in ToSet(adapters);
  }

  // ---------------------------------------------------------------- transitions

  /** The adapters a snapshot reports as discovering, restricted to the requested one. */
  function ReportedKeys(keys: seq<Key>, requested: Option<Key>): seq<Key> {
    if keys == [] then []
    else
      var n := |keys| - 1;
      ReportedKeys(keys[..n], requested) + if Matches(requested, keys[n]) then [keys[n]] else []
  }

  function AfterStart(s: State, owner: string, requested: Option<Key>, call: StartCall): State {
    match call
    case Refused(leftOn) => s.(discovering := s.discovering + leftOn)
    case Reported(on, keys, rolledBack) =>
      var adapters := ReportedKeys(keys, requested);
      var discovering := s.discovering + on;
      if adapters == [] then s.(discovering := if rolledBack then Unmatched(discovering, requested) else discovering)
      else State(s.leases[s.sequence := Lease(owner, requested, adapters, false)], s.sequence + 1, discovering,
                 s.sent + [Event(s.sequence, Started)])
  }

  function Without(leases: map<Id, Lease>, ids: seq<Id>): map<Id, Lease> {
    map id | id in leases && id !in ids :: leases[id]
  }

  lemma WithoutOneMore(leases: map<Id, Lease>, ids: seq<Id>, i: nat)
    requires i < |ids|
    ensures Without(leases, ids[..i + 1]) == Without(leases, ids[..i]) - {ids[i]}
  {
  }

  /** The selected leases end together if every stop succeeded. */
  function Stopped(s: State, ids: seq<Id>, completed: bool, discovering: set<Key>, cause: string): State {
    if completed
    then s.(leases := Without(s.leases, ids), discovering := discovering, sent := s.sent + EndEvents(ids, cause))
    else s.(discovering := discovering)
  }

  /** `ids` are the selected leases; nothing happens when there are none. */
  function AfterStop(s: State, ids: seq<Id>, calls: StopCalls, read: Reply, cause: string): State {
    var keys := Surplus(s.leases, ToSet(ids));
    if ids == [] then s
    else Stopped(s, ids, AllStopped(keys, calls, read), AfterStops(s.discovering, keys, calls), cause)
  }

  /** One attempt of a lease's timer; only the first one publishes its result. */
  function Expired(s: State, id: Id, completed: bool, discovering: set<Key>): State
    requires id in s.leases
  {
    State(if completed then s.leases - {id} else s.leases[id := s.leases[id].(announced := true)], s.sequence,
          discovering,
          s.sent + if s.leases[id].announced then [] else [Event(id, if completed then Completed else Failure)])
  }

  function AfterExpiry(s: State, id: Id, calls: StopCalls, read: Reply): State {
    if id !in s.leases then s
    else
      var keys := Surplus(s.leases, {id});
      Expired(s, id, AllStopped(keys, calls, read), AfterStops(s.discovering, keys, calls))
  }

  class ScanCoordinator {
    var leases: map<Id, Lease>
    var sequence: nat
    var events: seq<Event>
    const backend: Backend

    function View(): State
      reads this, backend
    {
      State(leases, sequence, backend.discovering, events)
    }

    constructor ()
      ensures fresh(backend) && View() == State(map[], 1, {}, [])
    {
      leases, sequence, events := map[], 1, [];
      backend := new Backend();
    }

    method Start(owner: string, requested: Option<Key>, answers: Answers) returns (id: Option<Id>)
      modifies this, backend
      ensures var call := CallOf(old(backend.discovering), requested, answers);
              && View() == AfterStart(old(View()), owner, requested, call)
              && id == if call.Reported? && ReportedKeys(call.keys, requested) != [] then Some(old(sequence)) else None
    {
      SwitchedKeeps(backend.discovering, requested, answers.adapters);
      var reply := backend.SwitchOn(requested, answers);
      if reply.Err? {
        return None;
      }
      var adapters := ReportedKeys(PoweredKeys(reply.value), requested);
      if adapters == [] {
        backend.RollBack(requested, answers.rollback);
        return None;
      }
      var lease := Lease(owner, requested, adapters, false);
      leases := leases[sequence := lease];
      events := events + [Event(sequence, Started)];
      id := Some(sequence);
      sequence := sequence + 1;
    }

    method StopSelected(request: Option<Id>, owner: Option<string>, calls: StopCalls, read: Reply,
                        cause: string)
      returns (ids: seq<Id>, adapters: seq<Key>, r: Reply)
      modifies this, backend
      ensures ListsSelected(ids, old(leases), request, owner)
      ensures Listing(adapters, Surplus(old(leases), ToSet(ids)))
      ensures View() == AfterStop(old(View()), ids, calls, read, cause)
      ensures if ids == [] then r == Err("request-not-found") else Replies(adapters, calls, read, r)
    {
      ids, adapters := SelectScans(leases, request, owner);
      assert ToSet(ids) == Selected(leases, request, owner);
      if ids == [] {
        return ids, adapters, Err("request-not-found");
      }
      r := StopAdapters(backend, adapters, calls, read);
      assert ToSet(adapters) == Surplus(leases, ToSet(ids));
      if r.Err? {
        return;
      }
      ghost var before, sent, discovering := leases, events, backend.discovering;
      for i := 0 to |ids|
        invariant backend.discovering == discovering && sequence == old(sequence)
        invariant leases == Without(before, ids[..i])
        invariant events == sent + EndEvents(ids, cause)[..i]
      {
        WithoutOneMore(before, ids, i);
        leases := leases - {ids[i]};
        events := events + [Event(ids[i], Ended(cause))];
      }
      assert ids[..|ids|] == ids && EndEvents(ids, cause)[..|ids|] == EndEvents(ids, cause);
    }

    method Expire(id: Id, calls: StopCalls, read: Reply) returns (finished: bool)
      modifies this, backend
      ensures View() == AfterExpiry(old(View()), id, calls, read)
      ensures finished <==> id !in leases
    {
      var ids, adapters := SelectScans(leases, Some(id), None);
      assert id in leases <==> id in Selected(leases, Some(id), None);
      if ids == [] {
        return true;
      }
      assert ids[0] in Selected(leases, Some(id), None);
      assert Selected(leases, Some(id), None) == {id};
      var r := StopAdapters(backend, adapters, calls, read);
      assert ToSet(adapters) == Surplus(leases, {id});
      var announced := leases[id].announced;
      if r.Ok? {
        leases := leases - {id};
      } else {
        leases := leases[id := leases[id].(announced := true)];
      }
      if !announced {
        events := events + [Event(id, if r.Ok? then Completed else Failure)];
      }
      finished := r.Ok?;
    }
  }

  // ---------------------------------------------------------------- runs

  /** `tainted` are the leases that a failed stop has selected. */
  datatype System = System(state: State, tainted: set<Id>)

  const INITIAL := System(State(map[], 1, {}, []), {})

  datatype Action =
    | Start(owner: string, requested: Option<Key>, answers: Answers)
    | Stop(request: Option<Id>, only: Option<string>, ids: seq<Id>, calls: StopCalls, read: Reply, cause: string)
    | Expire(id: Id, calls: StopCalls, read: Reply)

  ghost predicate Enabled(s: System, a: Action) {
    && (a.Stop? ==> ListsSelected(a.ids, s.state.leases, a.request, a.only))
    && (a.Start? && a.answers.adapters.Some? ==> DistinctAdapters(a.answers.adapters.value))
  }

  function Begun(s: System, owner: string, requested: Option<Key>, call: StartCall): System {
    s.(state := AfterStart(s.state, owner, requested, call))
  }

  ghost function Next(s: System, a: Action): System {
    if !Enabled(s, a) then s
    else match a
      case Start(owner, requested, answers) =>
        Begun(s, owner, requested, CallOf(s.state.discovering, requested, answers))
      case Stop(_, _, ids, calls, read, cause) =>
        System(AfterStop(s.state, ids, calls, read, cause),
               if AllStopped(Surplus(s.state.leases, ToSet(ids)), calls, read) then s.tainted
               else s.tainted + ToSet(ids))
      case Expire(id, calls, read) =>
        System(AfterExpiry(s.state, id, calls, read),
               if id !in s.state.leases || AllStopped(Surplus(s.state.leases, {id}), calls, read) then s.tainted
               else s.tainted + {id})
  }

  ghost function Run(actions: seq<Action>): System {
    if actions == [] then INITIAL else Next(Run(actions[..|actions| - 1]), actions[|actions| - 1])
  }

  // ---------------------------------------------------------------- adapters follow leases

  /** No adapter is left discovering without a lease. */
  predicate Covered(s: State) {
    s.discovering <= Held(s.leases)
  }

  /** Every lease that no failed stop has selected still has all its adapters discovering. */
  predicate Served(s: System) {
    forall id <- s.state.leases, k <- s.state.leases[id].adapters :: id !in s.tainted ==> k in s.state.discovering
  }

  predicate Numbered(s: State) {
    s.sequence >= 1 && forall id <- s.leases :: 1 <= id < s.sequence
  }

  predicate Good(s: System) {
    Covered(s.state) && Served(s) && Numbered(s.state) && forall id <- s.tainted :: id < s.state.sequence
  }

  /**
   The report of a start is exact: it names the matching adapters that are now discovering,
   and a refused call leaves nothing on that no lease holds.
   */
  ghost predicate Exact(s: State, requested: Option<Key>, call: StartCall) {
    match call
    case Refused(leftOn) => leftOn <= Held(s.leases)
    case Reported(on, keys, _) =>
      && (forall k <- on :: Matches(requested, k))
      && (forall k :: k in ReportedKeys(keys, requested) <==> Matches(requested, k) && k in s.discovering + on)
  }

  lemma {:induction false} ReportedMatch(keys: seq<Key>, requested: Option<Key>)
    ensures forall k :: k in ReportedKeys(keys, requested) <==> k in keys && Matches(requested, k)
  {
    if keys != [] {
      ReportedMatch(keys[..|keys| - 1], requested);
      assert keys == keys[..|keys| - 1] + [keys[|keys| - 1]];
    }
  }

  lemma HeldWith(leases: map<Id, Lease>, id: Id, lease: Lease)
    requires id !in leases
    ensures Held(leases[id := lease]) == Held(leases) + ToSet(lease.adapters)
  {
    var after := leases[id := lease];
    assert forall x <- leases :: x in after && after[x] == leases[x];
    forall k | k in ToSet(lease.adapters) ensures k in Held(after) {
      assert id in after && k in after[id].adapters;
    }
  }

  lemma StartKeeps(s: System, owner: string, requested: Option<Key>, call: StartCall)
    requires Good(s) && Exact(s.state, requested, call)
    ensures Good(Begun(s, owner, requested, call))
  {
    var t := Begun(s, owner, requested, call);
    if call.Reported? && ReportedKeys(call.keys, requested) != [] {
      HeldWith(s.state.leases, s.state.sequence, t.state.leases[s.state.sequence]);
    }
  }

  lemma WithoutHeld(leases: map<Id, Lease>, ids: seq<Id>)
    ensures Held(Without(leases, ids)) == HeldBy(leases, leases.Keys - ToSet(ids))
  {
    var after := Without(leases, ids);
    assert forall x :: x in leases.Keys - ToSet(ids) <==> x in after;
    assert forall x <- after :: after[x] == leases[x];
  }

  lemma HeldSplits(leases: map<Id, Lease>, ids: set<Id>)
    ensures Held(leases) <= Surplus(leases, ids) + HeldBy(leases, leases.Keys - ids)
  {
    forall k | k in Held(leases) && k !in HeldBy(leases, leases.Keys - ids) ensures k in HeldBy(leases, ids) {
      var id :| id in leases && k in leases[id].adapters;
      assert id in ids;
    }
  }

  /** A stop, whatever fails, leaves every adapter of the other leases alone. */
  lemma OthersSpared(s: State, ids: set<Id>, calls: StopCalls, id: Id, k: Key)
    requires id in s.leases && id !in ids && k in s.leases[id].adapters && k in s.discovering
    ensures k in AfterStops(s.discovering, Surplus(s.leases, ids), calls)
  {
    assert k in HeldBy(s.leases, s.leases.Keys - ids);
  }

  lemma StopCovers(s: State, ids: seq<Id>, calls: StopCalls, read: Reply, cause: string)
    requires Covered(s)
    ensures Covered(AfterStop(s, ids, calls, read, cause))
  {
    var keys := Surplus(s.leases, ToSet(ids));
    if ids != [] && AllStopped(keys, calls, read) {
      WithoutHeld(s.leases, ids);
      HeldSplits(s.leases, ToSet(ids));
    }
  }

  lemma StopKeeps(s: System, a: Action)
    requires Good(s) && a.Stop? && Enabled(s, a)
    ensures Good(Next(s, a))
  {
    StopCovers(s.state, a.ids, a.calls, a.read, a.cause);
    var t := Next(s, a);
    var ids := ToSet(a.ids);
    if a.ids != [] {
      forall id, k | id in t.state.leases && k in t.state.leases[id].adapters && id !in t.tainted
        ensures k in t.state.discovering
      {
        assert id !in ids;
        OthersSpared(s.state, ids, a.calls, id, k);
      }
    }
  }

  lemma ExpireKeeps(s: System, id: Id, calls: StopCalls, read: Reply)
    requires Good(s)
    ensures Good(Next(s, Expire(id, calls, read)))
  {
    var t := Next(s, Expire(id, calls, read));
    if id in s.state.leases {
      var keys := Surplus(s.state.leases, {id});
      HeldSplits(s.state.leases, {id});
      if AllStopped(keys, calls, read) {
        WithoutHeld(s.state.leases, [id]);
        assert Without(s.state.leases, [id]) == t.state.leases && ToSet([id]) == {id};
      } else {
        HeldUnchanged(s.state.leases, id);
      }
      forall x, k | x in t.state.leases && k in t.state.leases[x].adapters && x !in t.tainted
        ensures k in t.state.discovering
      {
        OthersSpared(s.state, {id}, calls, x, k);
      }
    }
  }

  lemma HeldUnchanged(leases: map<Id, Lease>, id: Id)
    requires id in leases
    ensures Held(leases[id := leases[id].(announced := true)]) == Held(leases)
  {
    var after := leases[id := leases[id].(announced := true)];
    assert forall x :: x in after <==> x in leases;
    assert forall x <- leases :: after[x].adapters == leases[x].adapters;
  }

  /** A snapshot shows, of the matching adapters, exactly those that are on. */
  ghost predicate Truthful(snapshot: Snapshot, requested: Option<Key>, on: set<Key>) {
    forall k :: Matches(requested, k) ==> (k in PoweredKeys(snapshot) <==> k in on)
  }

  /**
   If a start gets as far as its snapshot, the snapshot is truthful or, should reading it fail,
   everything newly switched on was leased before.
   */
  ghost predicate Dependable(s: State, requested: Option<Key>, answers: Answers) {
    Succeeds(s.discovering, requested, answers.adapters) ==>
      var newly := NewlyOn(s.discovering, requested, answers.adapters.value);
      match answers.snapshot
      case Ok(snapshot) => Truthful(snapshot, requested, s.discovering + newly)
      case Err(_) => newly <= Held(s.leases)
  }

  ghost predicate DistinctAnswers(answers: Answers) {
    answers.adapters.Some? ==> DistinctAdapters(answers.adapters.value)
  }

  /** What a start amounts to, from what its calls answer. */
  lemma CallIs(on: set<Key>, requested: Option<Key>, answers: Answers)
    requires DistinctAnswers(answers)
    ensures var call := CallOf(on, requested, answers);
            if !Succeeds(on, requested, answers.adapters) then call == Refused({})
            else
              var newly := NewlyOn(on, requested, answers.adapters.value);
              if answers.snapshot.Err? then call == Refused(newly)
              else call == Reported(newly, PoweredKeys(answers.snapshot.value),
                                    requested == None || answers.rollback.Stops())
  {
    if answers.adapters.Some? {
      SwitchedIff(on, requested, answers.adapters.value);
      var newly := NewlyOn(on, requested, answers.adapters.value);
      assert (on + newly) - on == newly;
    }
    assert on - on == {};
  }

  /** A dependable start is reported exactly. */
  lemma DependableIsExact(s: State, requested: Option<Key>, answers: Answers)
    requires DistinctAnswers(answers) && Dependable(s, requested, answers)
    ensures Exact(s, requested, CallOf(s.discovering, requested, answers))
  {
    CallIs(s.discovering, requested, answers);
    if answers.snapshot.Ok? {
      ReportedMatch(PoweredKeys(answers.snapshot.value), requested);
    }
  }

  ghost predicate DependableStarts(actions: seq<Action>) {
    forall i :: 0 <= i < |actions| && actions[i].Start? ==>
      Dependable(Run(actions[..i]).state, actions[i].requested, actions[i].answers)
  }

  /**
   After every run of starts, stops, owner losses and expiries, each adapter still discovering is
   held by a lease, and a lease that no failed stop has selected still has all its adapters discovering.
   */
  lemma {:induction false} RunGood(actions: seq<Action>)
    requires DependableStarts(actions)
    ensures Good(Run(actions))
  {
    if actions != [] {
      var n := |actions| - 1;
      var before, a := actions[..n], actions[n];
      assert forall i :: 0 <= i < n ==> before[..i] == actions[..i];
      RunGood(before);
      if Enabled(Run(before), a) {
        match a
        case Start(owner, requested, answers) =>
          DependableIsExact(Run(before).state, requested, answers);
          StartKeeps(Run(before), owner, requested, CallOf(Run(before).state.discovering, requested, answers));
        case Stop(_, _, _, _, _, _) => StopKeeps(Run(before), a);
        case Expire(id, calls, read) => ExpireKeeps(Run(before), id, calls, read);
      }
    }
  }

  /** As long as no stop has failed, exactly the leased adapters are discovering. */
  lemma DiscoveringIsHeld(actions: seq<Action>)
    requires DependableStarts(actions) && forall id <- Run(actions).state.leases :: id !in Run(actions).tainted
    ensures Run(actions).state.discovering == Held(Run(actions).state.leases)
  {
    RunGood(actions);
  }

  // ---------------------------------------------------------------- starts that are not exact

  /**
   A start that fails leaves an adapter on without a lease exactly when every step up to the snapshot
   succeeded, reading the snapshot failed, and an adapter newly switched on is not leased. A start that
   fails earlier leaks nothing, whatever it had begun.
   */
  lemma RefusedLeaksIff(s: System, owner: string, requested: Option<Key>, answers: Answers)
    requires Good(s) && DistinctAnswers(answers)
    requires !Succeeds(s.state.discovering, requested, answers.adapters) || answers.snapshot.Err?
    ensures !Covered(Next(s, Start(owner, requested, answers)).state)
       <==> && Succeeds(s.state.discovering, requested, answers.adapters)
            && exists k <- NewlyOn(s.state.discovering, requested, answers.adapters.value) :: k !in Held(s.state.leases)
    ensures Next(s, Start(owner, requested, answers)).state.leases == s.state.leases
  {
    CallIs(s.state.discovering, requested, answers);
    var t := Next(s, Start(owner, requested, answers)).state;
    if Succeeds(s.state.discovering, requested, answers.adapters) {
      var newly := NewlyOn(s.state.discovering, requested, answers.adapters.value);
      assert t.discovering == s.state.discovering + newly;
    } else {
      assert t.discovering == s.state.discovering + {};
    }
  }

  lemma GrantedKeepsOn(s: System, lease: Lease, on: set<Key>, t: System)
    requires Good(s)
    requires t.state.leases == s.state.leases[s.state.sequence := lease]
    requires t.state.discovering == s.state.discovering + on && t.tainted == s.tainted
    ensures Covered(t.state) && Served(t)
       <==> on <= Held(s.state.leases) + ToSet(lease.adapters) && ToSet(lease.adapters) <= s.state.discovering + on
  {
    HeldWith(s.state.leases, s.state.sequence, lease);
    assert s.state.sequence !in s.tainted;
    if Served(t) {
      assert forall k <- t.state.leases[s.state.sequence].adapters :: k in t.state.discovering;
    }
  }

  lemma GrantedCallKeeps(s: System, owner: string, requested: Option<Key>, on: set<Key>, keys: seq<Key>,
                         rolledBack: bool)
    requires Good(s) && ReportedKeys(keys, requested) != []
    ensures Good(Begun(s, owner, requested, Reported(on, keys, rolledBack)))
       <==> && on <= Held(s.state.leases) + ToSet(ReportedKeys(keys, requested))
            && ToSet(ReportedKeys(keys, requested)) <= s.state.discovering + on
  {
    var lease := Lease(owner, requested, ReportedKeys(keys, requested), false);
    GrantedKeepsOn(s, lease, on, Begun(s, owner, requested, Reported(on, keys, rolledBack)));
  }

  /** Leases that no failed stop has selected hold no adapter that a rollback of `requested` stops. */
  predicate RollbackSpares(s: System, requested: Option<Key>) {
    forall id <- s.state.leases, k <- s.state.leases[id].adapters :: id !in s.tainted ==> !Matches(requested, k)
  }

  lemma RolledBackCallKeeps(s: System, owner: string, requested: Option<Key>, on: set<Key>, keys: seq<Key>,
                            rolledBack: bool)
    requires Good(s) && ReportedKeys(keys, requested) == []
    ensures Good(Begun(s, owner, requested, Reported(on, keys, rolledBack)))
       <==> && (rolledBack ==> RollbackSpares(s, requested))
            && (forall k <- on :: k in Held(s.state.leases) || (rolledBack && Matches(requested, k)))
  {
    var t := Begun(s, owner, requested, Reported(on, keys, rolledBack));
    assert t.state.leases == s.state.leases;
    if Good(t) {
      forall k | k in on && !(rolledBack && Matches(requested, k)) ensures k in Held(s.state.leases) {
        assert k in t.state.discovering;
      }
      forall id, k | rolledBack && id in s.state.leases && k in s.state.leases[id].adapters && id !in s.tainted
        ensures !Matches(requested, k)
      {
        assert k in t.state.discovering;
      }
    }
  }

  /** The matching adapters that a snapshot shows powered and discovering. */
  function ShownKeys(snapshot: Snapshot, requested: Option<Key>): set<Key> {
    set k | k in PoweredKeys(snapshot) && Matches(requested, k)
  }

  lemma ShownAreReported(snapshot: Snapshot, requested: Option<Key>)
    ensures ShownKeys(snapshot, requested) == ToSet(ReportedKeys(PoweredKeys(snapshot), requested))
    ensures ShownKeys(snapshot, requested) == {} <==> ReportedKeys(PoweredKeys(snapshot), requested) == []
  {
    var reported := ReportedKeys(PoweredKeys(snapshot), requested);
    ReportedMatch(PoweredKeys(snapshot), requested);
    if reported != [] {
      assert reported[0] in ToSet(reported);
    }
  }

  /** A start that reads its snapshot, in terms of what it has switched on and what the snapshot shows. */
  lemma NextIsBegun(s: System, owner: string, requested: Option<Key>, answers: Answers)
    requires DistinctAnswers(answers)
    requires Succeeds(s.state.discovering, requested, answers.adapters) && answers.snapshot.Ok?
    ensures Next(s, Start(owner, requested, answers))
         == Begun(s, owner, requested, Reported(NewlyOn(s.state.discovering, requested, answers.adapters.value),
                                                PoweredKeys(answers.snapshot.value),
                                                requested == None || answers.rollback.Stops()))
  {
    CallIs(s.state.discovering, requested, answers);
  }

  lemma GrantedBegun(s: System, owner: string, requested: Option<Key>, newly: set<Key>, snapshot: Snapshot,
                     rolledBack: bool)
    requires Good(s) && ShownKeys(snapshot, requested) != {}
    ensures Good(Begun(s, owner, requested, Reported(newly, PoweredKeys(snapshot), rolledBack)))
       <==> && newly <= Held(s.state.leases) + ShownKeys(snapshot, requested)
            && ShownKeys(snapshot, requested) <= s.state.discovering + newly
  {
    ShownAreReported(snapshot, requested);
    GrantedCallKeeps(s, owner, requested, newly, PoweredKeys(snapshot), rolledBack);
  }

  lemma RolledBackBegun(s: System, owner: string, requested: Option<Key>, newly: set<Key>, snapshot: Snapshot,
                        rolledBack: bool)
    requires Good(s) && ShownKeys(snapshot, requested) == {} && forall k <- newly :: Matches(requested, k)
    ensures Good(Begun(s, owner, requested, Reported(newly, PoweredKeys(snapshot), rolledBack)))
       <==> if rolledBack then RollbackSpares(s, requested) else newly <= Held(s.state.leases)
  {
    ShownAreReported(snapshot, requested);
    RolledBackCallKeeps(s, owner, requested, newly, PoweredKeys(snapshot), rolledBack);
  }

  /**
   A start whose snapshot shows a matching adapter keeps both promises exactly when every adapter newly
   switched on is shown or leased already, and every matching adapter shown is on.
   */
  lemma GrantedKeepsIff(s: System, owner: string, requested: Option<Key>, answers: Answers)
    requires Good(s) && DistinctAnswers(answers)
    requires Succeeds(s.state.discovering, requested, answers.adapters) && answers.snapshot.Ok?
    requires ShownKeys(answers.snapshot.value, requested) != {}
    ensures var newly := NewlyOn(s.state.discovering, requested, answers.adapters.value);
            var shown := ShownKeys(answers.snapshot.value, requested);
            Good(Next(s, Start(owner, requested, answers)))
            <==> newly <= Held(s.state.leases) + shown && shown <= s.state.discovering + newly
  {
    var newly := NewlyOn(s.state.discovering, requested, answers.adapters.value);
    NextIsBegun(s, owner, requested, answers);
    GrantedBegun(s, owner, requested, newly, answers.snapshot.value, requested == None || answers.rollback.Stops());
  }

  /**
   A start whose snapshot shows no matching adapter is rolled back. It keeps both promises exactly when, if
   the rollback works, it stops no adapter that an intact lease holds and, if it does not, everything newly
   switched on is leased already.
   */
  lemma RolledBackKeepsIff(s: System, owner: string, requested: Option<Key>, answers: Answers)
    requires Good(s) && DistinctAnswers(answers)
    requires Succeeds(s.state.discovering, requested, answers.adapters) && answers.snapshot.Ok?
    requires ShownKeys(answers.snapshot.value, requested) == {}
    ensures var newly := NewlyOn(s.state.discovering, requested, answers.adapters.value);
            Good(Next(s, Start(owner, requested, answers)))
            <==> if requested == None || answers.rollback.Stops() then RollbackSpares(s, requested)
                 else newly <= Held(s.state.leases)
  {
    var newly := NewlyOn(s.state.discovering, requested, answers.adapters.value);
    NextIsBegun(s, owner, requested, answers);
    RolledBackBegun(s, owner, requested, newly, answers.snapshot.value, requested == None || answers.rollback.Stops());
  }

  const CONTROLLER := Adapter("hci0", true, On, true)
  const UNREAD := Answers(Some([CONTROLLER]), Err("snapshot"), Done([]))

  /** Such a start is reachable: the first scan of all, with a snapshot that cannot be read. */
  lemma RefusedStartLeaks()
    ensures !Covered(Next(INITIAL, Start("client", None, UNREAD)).state)
  {
    assert Good(INITIAL);
    var adapters := [CONTROLLER];
    assert CONTROLLER in adapters;
    assert "hci0" in NewlyOn({}, None, adapters);
    RefusedLeaksIff(INITIAL, "client", None, UNREAD);
  }

  // ---------------------------------------------------------------- outcomes

  function OutcomesOf(sent: seq<Event>, id: Id): seq<Notice> {
    if sent == [] then []
    else
      var last := sent[|sent| - 1];
      OutcomesOf(sent[..|sent| - 1], id) + (if last.id == id && last.notice != Started then [last.notice] else [])
  }

  /** What has been published about the end of a lease, and whether it may still be active. */
  predicate OutcomeGood(s: State, id: Id) {
    var h := OutcomesOf(s.sent, id);
    if id in s.leases then h == (if s.leases[id].announced then [Failure] else [])
    else if 1 <= id < s.sequence then EndedOnce(h) || EndedTwice(h)
    else h == []
  }

  predicate EndedOnce(h: seq<Notice>) {
    |h| == 1
  }

  /** The timer's failed attempt was published, and a later explicit stop as well. */
  predicate EndedTwice(h: seq<Notice>) {
    |h| == 2 && h[0] == Failure && h[1].Ended?
  }

  ghost predicate OutcomesGood(s: State) {
    Numbered(s) && forall id :: OutcomeGood(s, id)
  }

  lemma OutcomesGrow(sent: seq<Event>, e: Event, id: Id)
    ensures OutcomesOf(sent + [e], id)
         == OutcomesOf(sent, id) + if e.id == id && e.notice != Started then [e.notice] else []
  {
    assert (sent + [e])[..|sent|] == sent;
  }

  lemma EndEventsLast(ids: seq<Id>, cause: string)
    requires ids != []
    ensures EndEvents(ids, cause) == EndEvents(ids[..|ids| - 1], cause) + [Event(ids[|ids| - 1], Ended(cause))]
  {
  }

  lemma {:induction false} OutcomesOfEnds(sent: seq<Event>, ids: seq<Id>, cause: string, id: Id)
    requires Distinct(ids)
    ensures OutcomesOf(sent + EndEvents(ids, cause), id)
         == OutcomesOf(sent, id) + if id in ids then [Ended(cause)] else []
  {
    if ids == [] {
      assert sent + EndEvents(ids, cause) == sent;
      assert OutcomesOf(sent, id) + [] == OutcomesOf(sent, id);
    } else {
      var n := |ids| - 1;
      var ends, last := EndEvents(ids[..n], cause), Event(ids[n], Ended(cause));
      OutcomesOfEnds(sent, ids[..n], cause, id);
      EndEventsLast(ids, cause);
      assert sent + (ends + [last]) == (sent + ends) + [last];
      OutcomesGrow(sent + ends, last, id);
      InLast(ids, id);
    }
  }

  lemma InLast(ids: seq<Id>, id: Id)
    requires ids != []
    ensures id in ids <==> id in ids[..|ids| - 1] || id == ids[|ids| - 1]
  {
  }

  lemma StartOutcomes(s: State, owner: string, requested: Option<Key>, call: StartCall)
    requires OutcomesGood(s)
    ensures OutcomesGood(AfterStart(s, owner, requested, call))
  {
    var t := AfterStart(s, owner, requested, call);
    forall x ensures OutcomeGood(t, x) {
      assert OutcomeGood(s, x);
      OutcomesGrow(s.sent, Event(s.sequence, Started), x);
      assert OutcomesOf(s.sent, x) + [] == OutcomesOf(s.sent, x);
    }
  }

  lemma StoppedOutcome(s: State, ids: seq<Id>, completed: bool, discovering: set<Key>, cause: string, x: Id)
    requires Numbered(s) && OutcomeGood(s, x) && Distinct(ids) && forall id <- ids :: id in s.leases
    ensures OutcomeGood(Stopped(s, ids, completed, discovering, cause), x)
  {
    OutcomesOfEnds(s.sent, ids, cause, x);
    assert OutcomesOf(s.sent, x) + [] == OutcomesOf(s.sent, x);
  }

  lemma StopOutcomes(s: State, ids: seq<Id>, calls: StopCalls, read: Reply, cause: string)
    requires OutcomesGood(s) && Distinct(ids) && forall id <- ids :: id in s.leases
    ensures OutcomesGood(AfterStop(s, ids, calls, read, cause))
  {
    if ids != [] {
      var keys := Surplus(s.leases, ToSet(ids));
      forall x ensures OutcomeGood(AfterStop(s, ids, calls, read, cause), x) {
        assert OutcomeGood(s, x);
        StoppedOutcome(s, ids, AllStopped(keys, calls, read), AfterStops(s.discovering, keys, calls), cause, x);
      }
    }
  }

  lemma ExpiredOutcome(s: State, id: Id, completed: bool, discovering: set<Key>, x: Id)
    requires Numbered(s) && OutcomeGood(s, x) && id in s.leases
    ensures OutcomeGood(Expired(s, id, completed, discovering), x)
  {
    OutcomesGrow(s.sent, Event(id, if completed then Completed else Failure), x);
    assert OutcomesOf(s.sent, x) + [] == OutcomesOf(s.sent, x);
    assert s.sent + [] == s.sent;
  }

  lemma ExpireOutcomes(s: State, id: Id, calls: StopCalls, read: Reply)
    requires OutcomesGood(s)
    ensures OutcomesGood(AfterExpiry(s, id, calls, read))
  {
    if id in s.leases {
      var keys := Surplus(s.leases, {id});
      forall x ensures OutcomeGood(AfterExpiry(s, id, calls, read), x) {
        assert OutcomeGood(s, x);
        ExpiredOutcome(s, id, AllStopped(keys, calls, read), AfterStops(s.discovering, keys, calls), x);
      }
    }
  }

  /**
   Every lease that is over has published one outcome, or two: the failure of its timer's first
   attempt and the explicit stop that then removed it.
   */
  lemma {:induction false} RunOutcomes(actions: seq<Action>)
    ensures OutcomesGood(Run(actions).state)
  {
    if actions != [] {
      var before, a := actions[..|actions| - 1], actions[|actions| - 1];
      RunOutcomes(before);
      if Enabled(Run(before), a) {
        match a
        case Start(owner, requested, answers) =>
          StartOutcomes(Run(before).state, owner, requested, CallOf(Run(before).state.discovering, requested, answers));
        case Stop(_, _, ids, calls, read, cause) => StopOutcomes(Run(before).state, ids, calls, read, cause);
        case Expire(id, calls, read) => ExpireOutcomes(Run(before).state, id, calls, read);
      }
    } else {
      assert forall id :: OutcomeGood(INITIAL.state, id);
    }
  }

  lemma RunThen(actions: seq<Action>, a: Action)
    ensures Run(actions + [a]) == Next(Run(actions), a)
    ensures (actions + [a])[..|actions|] == actions
  {
    assert (actions + [a])[..|actions|] == actions;
  }

  /** Whether the lease's outcomes become two or stay one. */
  predicate SecondIff(s: State, t: State, id: Id) {
    && id in s.leases && id !in t.leases
    && (EndedTwice(OutcomesOf(t.sent, id)) <==> s.leases[id].announced)
    && (EndedOnce(OutcomesOf(t.sent, id)) <==> !s.leases[id].announced)
    && (s.leases[id].announced <==> OutcomesOf(s.sent, id) == [Failure])
  }

  lemma StoppedSecond(s: State, ids: seq<Id>, discovering: set<Key>, cause: string, id: Id)
    requires OutcomeGood(s, id) && Distinct(ids) && id in ids && id in s.leases
    ensures SecondIff(s, Stopped(s, ids, true, discovering, cause), id)
  {
    OutcomesOfEnds(s.sent, ids, cause, id);
  }

  lemma StopIsStopped(s: System, a: Action)
    requires a.Stop? && Enabled(s, a) && a.ids != []
    requires AllStopped(Surplus(s.state.leases, ToSet(a.ids)), a.calls, a.read)
    ensures var on := AfterStops(s.state.discovering, Surplus(s.state.leases, ToSet(a.ids)), a.calls);
            Next(s, a).state == Stopped(s.state, a.ids, true, on, a.cause)
  {
  }

  /**
   A lease ended by an explicit stop publishes a second outcome exactly when its timer had published
   one before, which every subscriber has seen as the lease's failure.
   */
  lemma SecondOutcomeIff(actions: seq<Action>, a: Action, id: Id)
    requires a.Stop? && Enabled(Run(actions), a) && id in a.ids
    requires AllStopped(Surplus(Run(actions).state.leases, ToSet(a.ids)), a.calls, a.read)
    ensures SecondIff(Run(actions).state, Run(actions + [a]).state, id)
  {
    var s := Run(actions).state;
    RunOutcomes(actions);
    RunThen(actions, a);
    assert OutcomeGood(s, id);
    StopIsStopped(Run(actions), a);
    StoppedSecond(s, a.ids, AfterStops(s.discovering, Surplus(s.leases, ToSet(a.ids)), a.calls), a.cause, id);
  }

  /** A lease ended by its timer has published exactly one outcome. */
  lemma TimerEndsOnce(actions: seq<Action>, a: Action)
    requires a.Expire? && a.id in Run(actions).state.leases
    requires AllStopped(Surplus(Run(actions).state.leases, {a.id}), a.calls, a.read)
    ensures a.id !in Run(actions + [a]).state.leases
    ensures EndedOnce(OutcomesOf(Run(actions + [a]).state.sent, a.id))
  {
    var s := Run(actions).state;
    RunOutcomes(actions);
    RunThen(actions, a);
    assert OutcomeGood(s, a.id);
    OutcomesGrow(s.sent, Event(a.id, Completed), a.id);
    assert s.sent + [] == s.sent;
  }

  const EVERY_STOP_FAILS: StopCalls := k => Failed("busy", false)
  const EVERY_STOP_WORKS: StopCalls := k => Done([])

  function Example(announced: bool, sent: seq<Event>): State {
    State(map[1 := Lease("client", None, ["hci0"], announced)], 2, {"hci0"}, sent)
  }

  lemma ExampleSurplus(announced: bool, sent: seq<Event>)
    ensures Surplus(Example(announced, sent).leases, {1}) == {"hci0"}
  {
    var leases := Example(announced, sent).leases;
    assert 1 in leases && "hci0" in leases[1].adapters;
    assert leases.Keys - {1} == {};
  }

  const SHOWN := [Shown("hci0", true, true)]
  const READ := Answers(Some([CONTROLLER]), Ok(SHOWN), Done([]))

  lemma ExampleCall()
    ensures Dependable(INITIAL.state, None, READ)
    ensures CallOf({}, None, READ) == Reported({"hci0"}, ["hci0"], true)
  {
    var adapters := [CONTROLLER];
    assert CONTROLLER in adapters;
    assert NewlyOn({}, None, adapters) == {"hci0"};
    assert SHOWN[..0] == [];
    assert PoweredKeys(SHOWN) == ["hci0"];
    CallIs({}, None, READ);
  }

  lemma ExampleStart()
    ensures AfterStart(INITIAL.state, "client", None, Reported({"hci0"}, ["hci0"], true))
         == Example(false, [Event(1, Started)])
  {
    assert ["hci0"][..0] == [];
    assert ReportedKeys(["hci0"], None) == ["hci0"];
  }

  lemma ExampleExpire(sent: seq<Event>)
    ensures AfterExpiry(Example(false, sent), 1, EVERY_STOP_FAILS, Ok([])) == Example(true, sent + [Event(1, Failure)])
  {
    ExampleSurplus(false, sent);
    assert "hci0" in {"hci0"} && !EVERY_STOP_FAILS("hci0").Done?;
  }

  lemma ExampleStop(sent: seq<Event>)
    ensures AfterStop(Example(true, sent), [1], EVERY_STOP_WORKS, Ok([]), "cancelled").sent
         == sent + [Event(1, Ended("cancelled"))]
    ensures ListsSelected([1], Example(true, sent).leases, Some(1), None)
  {
  }

  lemma ExampleOutcomes()
    ensures OutcomesOf([Event(1, Started)] + [Event(1, Failure)] + [Event(1, Ended("cancelled"))], 1)
         == [Failure, Ended("cancelled")]
  {
    var sent := [Event(1, Started)];
    OutcomesGrow(sent, Event(1, Failure), 1);
    OutcomesGrow(sent + [Event(1, Failure)], Event(1, Ended("cancelled")), 1);
    assert OutcomesOf(sent, 1) == [];
  }

  const EXAMPLE_START := Start("client", None, READ)
  const EXAMPLE_EXPIRE := Expire(1, EVERY_STOP_FAILS, Ok([]))
  const EXAMPLE_STOP := Stop(Some(1), None, [1], EVERY_STOP_WORKS, Ok([]), "cancelled")

  lemma ExampleRun()
    ensures Run([EXAMPLE_START]).state == Example(false, [Event(1, Started)])
    ensures Run([EXAMPLE_START] + [EXAMPLE_EXPIRE]).state == Example(true, [Event(1, Started)] + [Event(1, Failure)])
  {
    RunThen([], EXAMPLE_START);
    assert [] + [EXAMPLE_START] == [EXAMPLE_START];
    RunThen([EXAMPLE_START], EXAMPLE_EXPIRE);
    ExampleCall();
    ExampleStart();
    ExampleExpire([Event(1, Started)]);
  }

  const EXAMPLE := [EXAMPLE_START] + [EXAMPLE_EXPIRE] + [EXAMPLE_STOP]

  lemma ExampleDependable()
    ensures DependableStarts(EXAMPLE)
  {
    ExampleCall();
    assert EXAMPLE[..0] == [];
  }

  lemma ExampleSent()
    ensures Run(EXAMPLE).state.sent == [Event(1, Started)] + [Event(1, Failure)] + [Event(1, Ended("cancelled"))]
  {
    ExampleRun();
    RunThen([EXAMPLE_START] + [EXAMPLE_EXPIRE], EXAMPLE_STOP);
    ExampleStop([Event(1, Started)] + [Event(1, Failure)]);
  }

  /** Two outcomes do occur: the timer's attempt fails, and then the owner stops the scan. */
  lemma TwoOutcomesOccur()
    ensures exists actions :: DependableStarts(actions) && EndedTwice(OutcomesOf(Run(actions).state.sent, 1))
  {
    ExampleDependable();
    ExampleSent();
    ExampleOutcomes();
  }

  // ---------------------------------------------------------------- starts that break a promise

  const SECOND_CONTROLLER := Adapter("hci1", true, On, true)
  const BOTH := [CONTROLLER, SECOND_CONTROLLER]
  const ONE_SHOWN := [Shown("hci0", true, false)] + [Shown("hci1", true, true)]
  const HALF_SHOWN := Answers(Some(BOTH), Ok(ONE_SHOWN), Done([]))

  lemma OneShown()
    ensures PoweredKeys(ONE_SHOWN) == ["hci1"]
  {
    assert ONE_SHOWN[..1] == [Shown("hci0", true, false)];
    assert [Shown("hci0", true, false)][..0] == [];
  }

  lemma BothNewlyOn()
    ensures DistinctAnswers(HALF_SHOWN) && Succeeds({}, None, Some(BOTH))
    ensures "hci0" in NewlyOn({}, None, BOTH)
  {
    assert CONTROLLER in BOTH;
  }

  lemma HalfShownKeys()
    ensures ShownKeys(ONE_SHOWN, None) == {"hci1"}
  {
    OneShown();
  }

  /**
   A granted start can leave an adapter on without a lease: both adapters are switched on, and the
   snapshot does not show the first one as discovering yet.
   */
  lemma GrantedStartLeaks()
    ensures !Good(Next(INITIAL, Start("client", None, HALF_SHOWN)))
  {
    HalfShownKeys();
    BothNewlyOn();
    assert "hci1" in ShownKeys(ONE_SHOWN, None);
    assert "hci0" !in Held(INITIAL.state.leases) + ShownKeys(ONE_SHOWN, None);
    GrantedKeepsIff(INITIAL, "client", None, HALF_SHOWN);
  }

  const UNSHOWN := Answers(Some([CONTROLLER]), Ok([]), Done([]))
  const SECOND_START := Start("other", Some("hci0"), UNSHOWN)

  /**
   The start of a second client can stop the scan of the first: its snapshot does not show the adapter, so
   its rollback switches off what the first client has leased, although no stop has failed.
   */
  lemma RollbackStopsLeased()
    ensures var s := Run([EXAMPLE_START] + [SECOND_START]);
            && 1 in s.state.leases && s.state.leases[1].owner == "client" && s.state.leases[1].adapters == ["hci0"]
            && 1 !in s.tainted
            && "hci0" !in s.state.discovering
  {
    ExampleRun();
    RunThen([], EXAMPLE_START);
    assert [] + [EXAMPLE_START] == [EXAMPLE_START];
    RunThen([EXAMPLE_START], SECOND_START);
    SecondCall();
  }

  lemma SecondCall()
    ensures DistinctAnswers(UNSHOWN)
    ensures CallOf({"hci0"}, Some("hci0"), UNSHOWN) == Reported({}, [], true)
  {
    assert CONTROLLER in [CONTROLLER];
    assert Find([CONTROLLER], "hci0") == Some(CONTROLLER);
    assert NewlyOn({"hci0"}, Some("hci0"), [CONTROLLER]) == {};
    CallIs({"hci0"}, Some("hci0"), UNSHOWN);
  }
}
