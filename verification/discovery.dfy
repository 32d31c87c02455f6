/**
 Switching discovery on and off (`set_scanning` in src/bluez.rs): a global start walks over the
 adapters and undoes itself when one of them fails, and every call ends with a snapshot that may fail
 although discovery has been switched.
 */
module Discovery {
  import opened Wrappers

  type Key = string

  /** An adapter as a snapshot shows it. */
  datatype Shown = Shown(key: Key, powered: bool, discovering: bool)

  type Snapshot = seq<Shown>

  datatype Reply = Ok(value: Snapshot) | Err(error: string)

  datatype Power = Unreadable | Off | On

  /** What one adapter answers: whether its key and its power can be read, and whether discovery starts on it. */
  datatype Adapter = Adapter(key: Key, readable: bool, power: Power, starts: bool)

  /** One call to switch discovery off: a failing call may or may not have taken effect. */
  datatype StopCall = Done(snapshot: Snapshot) | Failed(error: string, stopped: bool) {
    predicate Stops() {
      Done? || stopped
    }
  }

  /** What a start meets: the adapters if they can be listed, the final snapshot, and the call that undoes it. */
  datatype Answers = Answers(adapters: Option<seq<Adapter>>, snapshot: Reply, rollback: StopCall)

  predicate Matches(requested: Option<Key>, key: Key) {
    requested == None || requested == Some(key)
  }

  function Unmatched(keys: set<Key>, requested: Option<Key>): set<Key> {
    set k | k in keys && !Matches(requested, k)
  }

  function ToSet<T>(s: seq<T>): set<T> {
    set x | x in s
  }

  // ---------------------------------------------------------------- starting

  /** A walk over the adapters: what is on, what the walk has started, and whether it still goes on. */
  datatype Walk = Walk(on: set<Key>, started: seq<Key>, eligible: bool, failed: bool)

  function Visit(w: Walk, a: Adapter): Walk {
    if w.failed then w
    else match a.power
      case Unreadable => w.(failed := true)
      case Off => w
      case On =>
        if a.key in w.on then w.(eligible := true)
        else if a.starts then Walk(w.on + {a.key}, w.started + [a.key], true, false)
        else w.(eligible := true, failed := true)
  }

  function Walked(on: set<Key>, adapters: seq<Adapter>): Walk {
    if adapters == [] then Walk(on, [], false, false)
    else Visit(Walked(on, adapters[..|adapters| - 1]), adapters[|adapters| - 1])
  }

  /** The adapter with the key, unless reading an earlier one's key fails. */
  function Find(adapters: seq<Adapter>, key: Key): Option<Adapter> {
    if adapters == [] || !adapters[0].readable then None
    else if adapters[0].key == key then Some(adapters[0])
    else Find(adapters[1..], key)
  }

  /** What is on after the attempt, and whether it succeeded. */
  function Switched(on: set<Key>, requested: Option<Key>, adapters: Option<seq<Adapter>>): (set<Key>, bool) {
    if adapters.None? then (on, false)
    else match requested
      case None =>
        var w := Walked(on, adapters.value);
        if w.failed || !w.eligible then (w.on - ToSet(w.started), false) else (w.on, true)
      case Some(key) =>
        var a := Find(adapters.value, key);
        if a.None? || a.value.power != On then (on, false)
        else if key in on then (on, true)
        else if a.value.starts then (on + {key}, true)
        else (on, false)
  }

  class Backend {
    // Adapters on which this program keeps discovery running.
    var discovering: set<Key>

    constructor ()
      ensures discovering == {}
    {
      discovering := {};
    }

    /** Whether discovery was started just now; none if that failed. */
    method StartDiscovery(a: Adapter) returns (r: Option<bool>)
      modifies this
      ensures r == if a.key in old(discovering) then Some(false) else if a.starts then Some(true) else None
      ensures discovering == if r == Some(true) then old(discovering) + {a.key} else old(discovering)
    {
      if a.key in discovering {
        return Some(false);
      }
      if !a.starts {
        return None;
      }
      discovering := discovering + {a.key};
      r := Some(true);
    }

    /** The adapters started, and whether every powered adapter is now on and there is one. */
    method DiscoverPowered(adapters: seq<Adapter>) returns (started: seq<Key>, ok: bool)
      modifies this
      ensures var w := Walked(old(discovering), adapters);
              discovering == w.on && started == w.started && (ok <==> w.eligible && !w.failed)
    {
      started := [];
      var eligible := false;
      for i := 0 to |adapters|
        invariant Walked(old(discovering), adapters[..i]) == Walk(discovering, started, eligible, false)
      {
        assert adapters[..i + 1][..i] == adapters[..i];
        var a := adapters[i];
        if a.power == Unreadable {
          FailureStays(old(discovering), adapters, i + 1);
          return started, false;
        }
        if a.power == On {
          eligible := true;
          var r := StartDiscovery(a);
          if r == None {
            FailureStays(old(discovering), adapters, i + 1);
            return started, false;
          }
          if r == Some(true) {
            started := started + [a.key];
          }
        }
      }
      assert adapters[..|adapters|] == adapters;
      ok := eligible;
    }

    method StopAll(keys: seq<Key>)
      modifies this
      ensures discovering == old(discovering) - ToSet(keys)
    {
      for i := 0 to |keys|
        invariant discovering == old(discovering) - ToSet(keys[..i])
      {
        assert ToSet(keys[..i + 1]) == ToSet(keys[..i]) + {keys[i]};
        discovering := discovering - {keys[i]};
      }
      assert keys[..|keys|] == keys;
    }

    method StartGlobal(adapters: Option<seq<Adapter>>) returns (ok: bool)
      modifies this
      ensures (discovering, ok) == Switched(old(discovering), None, adapters)
    {
      if adapters.None? {
        return false;
      }
      var started;
      started, ok := DiscoverPowered(adapters.value);
      if !ok {
        StopAll(started);
      }
    }

    method StartOne(key: Key, adapters: Option<seq<Adapter>>) returns (ok: bool)
      modifies this
      ensures (discovering, ok) == Switched(old(discovering), Some(key), adapters)
    {
      if adapters.None? {
        return false;
      }
      var a := Find(adapters.value, key);
      FindHasKey(adapters.value, key);
      if a.None? || a.value.power != On {
        return false;
      }
      var r := StartDiscovery(a.value);
      ok := r.Some?;
    }

    method SwitchOn(requested: Option<Key>, answers: Answers) returns (r: Reply)
      modifies this
      ensures var (after, ok) := Switched(old(discovering), requested, answers.adapters);
              discovering == after && (ok ==> r == answers.snapshot) && (!ok ==> r.Err?)
    {
      var ok;
      match requested {
        case None => ok := StartGlobal(answers.adapters);
        case Some(key) => ok := StartOne(key, answers.adapters);
      }
      if !ok {
        return Err("discovery did not start");
      }
      r := answers.snapshot;
    }

    method SwitchOff(key: Key, call: StopCall) returns (r: Reply)
      modifies this
      ensures discovering == if call.Stops() then old(discovering) - {key} else old(discovering)
      ensures r == if call.Done? then Ok(call.snapshot) else Err(call.error)
    {
      if call.Stops() {
        discovering := discovering - {key};
      }
      r := if call.Done? then Ok(call.snapshot) else Err(call.error);
    }

    /** Undoing a start that nothing confirmed: one adapter, or all of them when none was named. */
    method RollBack(requested: Option<Key>, call: StopCall)
      modifies this
      ensures discovering == if requested == None || call.Stops() then Unmatched(old(discovering), requested)
                             else old(discovering)
    {
      if requested == None || call.Stops() {
        discovering := Unmatched(discovering, requested);
      }
    }
  }

  lemma {:induction false} FailureStays(on: set<Key>, adapters: seq<Adapter>, i: nat)
    requires i <= |adapters| && Walked(on, adapters[..i]).failed
    ensures Walked(on, adapters) == Walked(on, adapters[..i])
  {
    if i < |adapters| {
      var n := |adapters| - 1;
      assert adapters[..n][..i] == adapters[..i];
      FailureStays(on, adapters[..n], i);
    } else {
      assert adapters[..i] == adapters;
    }
  }

  lemma {:induction false} FindHasKey(adapters: seq<Adapter>, key: Key)
    ensures Find(adapters, key).Some? ==> Find(adapters, key).value.key == key && Find(adapters, key).value in adapters
  {
    if adapters != [] && adapters[0].readable && adapters[0].key != key {
      FindHasKey(adapters[1..], key);
    }
  }

  /** An attempt to start never stops what was on. */
  lemma SwitchedKeeps(on: set<Key>, requested: Option<Key>, adapters: Option<seq<Adapter>>)
    ensures on <= Switched(on, requested, adapters).0
  {
    if adapters.Some? {
      WalkAdds(on, adapters.value);
    }
  }

  // ---------------------------------------------------------------- when a start succeeds

  predicate DistinctAdapters(adapters: seq<Adapter>) {
    forall i, j :: 0 <= i < j < |adapters| ==> adapters[i].key != adapters[j].key
  }

  /** Nothing about the adapter stops a global start. */
  predicate Willing(on: set<Key>, a: Adapter) {
    a.power != Unreadable && (a.power == On ==> a.key in on || a.starts)
  }

  /** The start reaches its snapshot. */
  predicate Succeeds(on: set<Key>, requested: Option<Key>, adapters: Option<seq<Adapter>>) {
    && adapters.Some?
    && match requested
       case None =>
         && (forall a <- adapters.value :: Willing(on, a))
         && (exists a <- adapters.value :: a.power == On)
       case Some(key) =>
         var a := Find(adapters.value, key);
         a.Some? && a.value.power == On && (key in on || a.value.starts)
  }

  /** The matching powered adapters that were not on before. */
  function NewlyOn(on: set<Key>, requested: Option<Key>, adapters: seq<Adapter>): set<Key> {
    set a | a in adapters && Matches(requested, a.key) && a.power == On && a.key !in on :: a.key
  }

  /** The walk adds what it starts, and nothing that was on before. */
  lemma {:induction false} WalkAdds(on: set<Key>, adapters: seq<Adapter>)
    ensures var w := Walked(on, adapters); w.on == on + ToSet(w.started) && on !! ToSet(w.started)
  {
    if adapters != [] {
      WalkAdds(on, adapters[..|adapters| - 1]);
    }
  }

  /** The walk fails exactly at an unwilling adapter; otherwise exactly the powered adapters have been added. */
  lemma {:induction false} WalkedIff(on: set<Key>, adapters: seq<Adapter>)
    requires DistinctAdapters(adapters)
    ensures var w := Walked(on, adapters);
            && (!w.failed <==> forall a <- adapters :: Willing(on, a))
            && (!w.failed ==>
                && w.on == on + NewlyOn(on, None, adapters)
                && (w.eligible <==> exists a <- adapters :: a.power == On))
  {
    if adapters != [] {
      var n := |adapters| - 1;
      var a := adapters[n];
      WalkedIff(on, adapters[..n]);
      LastAdapter(on, adapters);
      var w := Walked(on, adapters[..n]);
      assert !w.failed ==> (a.key in w.on <==> a.key in on);
    }
  }

  lemma LastAdapter(on: set<Key>, adapters: seq<Adapter>)
    requires adapters != [] && DistinctAdapters(adapters)
    ensures var n := |adapters| - 1; var a := adapters[n];
            && (forall x :: x in adapters <==> x in adapters[..n] || x == a)
            && (forall x <- adapters[..n] :: x.key != a.key)
            && NewlyOn(on, None, adapters)
               == NewlyOn(on, None, adapters[..n]) + if a.power == On && a.key !in on then {a.key} else {}
  {
    assert adapters == adapters[..|adapters| - 1] + [adapters[|adapters| - 1]];
  }

  /**
   A start that succeeds adds exactly the matching powered adapters, and one that fails changes
   nothing: what a global start had begun is undone.
   */
  lemma SwitchedIff(on: set<Key>, requested: Option<Key>, adapters: seq<Adapter>)
    requires DistinctAdapters(adapters)
    ensures Switched(on, requested, Some(adapters))
         == if Succeeds(on, requested, Some(adapters)) then (on + NewlyOn(on, requested, adapters), true)
            else (on, false)
  {
    match requested
    case None =>
      WalkAdds(on, adapters);
      WalkedIff(on, adapters);
      var w := Walked(on, adapters);
      assert w.on - ToSet(w.started) == on;
    case Some(key) =>
      FindHasKey(adapters, key);
      if Find(adapters, key).Some? {
        OnlyThatKey(on, adapters, Find(adapters, key).value);
        assert on + {} == on;
      }
  }

  lemma OnlyThatKey(on: set<Key>, adapters: seq<Adapter>, a: Adapter)
    requires DistinctAdapters(adapters) && a in adapters
    ensures NewlyOn(on, Some(a.key), adapters) == if a.power == On && a.key !in on then {a.key} else {}
  {
  }
}
