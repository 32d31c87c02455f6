/** Reservations of authenticated Fast Pair commands (src/fast_pair/commands.rs). */
module PendingCommands {
  import opened Wrappers

  const U64_MAX := 0xffff_ffff_ffff_ffff

  datatype Key = Key(peer: string, group: nat, code: nat)

  datatype Reply = Acknowledged | Rejected(reason: string)

  /** Each entry holds the generation of the reservation that waits behind it. */
  datatype State = State(sequence: nat, entries: map<Key, nat>)

  predicate CanReserve(s: State, key: Key) {
    key !in s.entries && s.sequence < U64_MAX
  }

  function AfterReserve(s: State, key: Key): State {
    if CanReserve(s, key) then State(s.sequence + 1, s.entries[key := s.sequence]) else s
  }

  function AfterDisconnect(s: State, peer: string): State {
    s.(entries := map key | key in s.entries && key.peer != peer :: s.entries[key])
  }

  function AfterDrop(s: State, key: Key, generation: nat): State {
    if key in s.entries && s.entries[key] == generation then s.(entries := s.entries - {key}) else s
  }

  class Commands {
    var sequence: nat
    var entries: map<Key, nat>

    function View(): State
      reads this
    {
      State(sequence, entries)
    }

    constructor ()
      ensures View() == State(0, map[])
    {
      sequence, entries := 0, map[];
    }

    method Reserve(key: Key) returns (generation: Option<nat>)
      modifies this
      ensures View() == AfterReserve(old(View()), key)
      ensures generation == if CanReserve(old(View()), key) then Some(old(sequence)) else None
    {
      if key in entries {
        return None;
      }
      if sequence >= U64_MAX {
        return None;
      }
      generation := Some(sequence);
      entries := entries[key := sequence];
      sequence := sequence + 1;
    }

    /** The reservation answered, if any. */
    method Resolve(key: Key) returns (answered: Option<nat>)
      modifies this
      ensures View() == old(View()).(entries := old(entries) - {key})
      ensures answered == if key in old(entries) then Some(old(entries)[key]) else None
    {
      answered := if key in entries then Some(entries[key]) else None;
      entries := entries - {key};
    }

    method Disconnect(peer: string)
      modifies this
      ensures View() == AfterDisconnect(old(View()), peer)
    {
      entries := map key | key in entries && key.peer != peer :: entries[key];
    }

    method Clear()
      modifies this
      ensures View() == old(View()).(entries := map[])
    {
      entries := map[];
    }

    /** Giving up a reservation, however its owner ends. */
    method Drop(key: Key, generation: nat)
      modifies this
      ensures View() == AfterDrop(old(View()), key, generation)
    {
      if key in entries && entries[key] == generation {
        entries := entries - {key};
      }
    }
  }

  // ---------------------------------------------------------------- runs

  /** What has become of a reservation's receiver. */
  datatype Receiver = Waiting | Answered(reply: Reply) | Cancelled

  /** A reservation that was granted, whether its owner still holds it, and its receiver. */
  datatype Reservation = Reservation(key: Key, held: bool, receiver: Receiver)

  /** `issued[g]` is the reservation of generation `g`. */
  datatype System = System(state: State, issued: seq<Reservation>)

  const INITIAL := System(State(0, map[]), [])

  datatype Action =
    | Reserve(key: Key)
    | Resolve(key: Key, reply: Reply)
    | Disconnect(peer: string)
    | Clear
    | Drop(generation: nat)

  predicate Enabled(s: System, a: Action) {
    a.Drop? ==> a.generation < |s.issued| && s.issued[a.generation].held
  }

  /** Receivers whose sender is gone from the entries are answered or cancelled. */
  function Settled(issued: seq<Reservation>, entries: map<Key, nat>, key: Key, r: Receiver): (after: seq<Reservation>)
    ensures |after| == |issued|
  {
    seq(|issued|, g requires 0 <= g < |issued| =>
      if issued[g].receiver != Waiting || (issued[g].key in entries && entries[issued[g].key] == g) then issued[g]
      else issued[g].(receiver := if issued[g].key == key then r else Cancelled))
  }

  function Next(s: System, a: Action): System {
    if !Enabled(s, a) then s
    else
      match a
      case Reserve(key) =>
        System(AfterReserve(s.state, key),
               if CanReserve(s.state, key) then s.issued + [Reservation(key, true, Waiting)] else s.issued)
      case Resolve(key, reply) =>
        var state := s.state.(entries := s.state.entries - {key});
        System(state, Settled(s.issued, state.entries, key, Answered(reply)))
      case Disconnect(peer) =>
        var state := AfterDisconnect(s.state, peer);
        System(state, Settled(s.issued, state.entries, Key(peer, 0, 0), Cancelled))
      case Clear =>
        System(s.state.(entries := map[]), Settled(s.issued, map[], Key("", 0, 0), Cancelled))
      case Drop(g) =>
        var state := AfterDrop(s.state, s.issued[g].key, g);
        var issued := s.issued[g := s.issued[g].(held := false)];
        System(state, Settled(issued, state.entries, issued[g].key, Cancelled))
  }

  function Run(actions: seq<Action>): System {
    if actions == [] then INITIAL else Next(Run(actions[..|actions| - 1]), actions[|actions| - 1])
  }

  /**
   Entries and waiting receivers correspond one to one, an entry exists only while the
   reservation of its own generation is held, and each generation is issued once.
   */
  ghost predicate Good(s: System) {
    && |s.issued| == s.state.sequence <= U64_MAX
    && (forall key <- s.state.entries ::
          var g := s.state.entries[key];
          g < |s.issued| && s.issued[g].key == key && s.issued[g].held && s.issued[g].receiver == Waiting)
    && (forall g :: 0 <= g < |s.issued| && s.issued[g].receiver == Waiting ==>
          s.issued[g].key in s.state.entries && s.state.entries[s.issued[g].key] == g)
  }

  lemma ReserveKeeps(s: System, key: Key)
    requires Good(s)
    ensures Good(Next(s, Reserve(key)))
  {
  }

  lemma DropKeeps(s: System, g: nat)
    requires Good(s)
    ensures Good(Next(s, Drop(g)))
  {
  }

  lemma NextKeeps(s: System, a: Action)
    requires Good(s)
    ensures Good(Next(s, a))
  {
    match a
    case Reserve(key) => ReserveKeeps(s, key);
    case Drop(g) => DropKeeps(s, g);
    case _ =>
  }

  lemma {:induction false} RunGood(actions: seq<Action>)
    ensures Good(Run(actions))
  {
    if actions != [] {
      RunGood(actions[..|actions| - 1]);
      NextKeeps(Run(actions[..|actions| - 1]), actions[|actions| - 1]);
    }
  }

  /** Every grant has a generation above all earlier ones, also when the counter is exhausted. */
  lemma GenerationsNeverRepeat(actions: seq<Action>, key: Key)
    ensures var s, t := Run(actions), Next(Run(actions), Reserve(key));
            if key in t.state.entries && key !in s.state.entries
            then t.state.entries[key] == |s.issued| < U64_MAX && t.issued[..|s.issued|] == s.issued
            else t == s
  {
    RunGood(actions);
  }

  lemma DropFreesOwnSlot(s: System, g: nat)
    requires Good(s) && Enabled(s, Drop(g))
    ensures var t := Next(s, Drop(g));
            && (forall key :: key in t.state.entries <==> key in s.state.entries && s.state.entries[key] != g)
            && (forall key <- t.state.entries :: t.state.entries[key] == s.state.entries[key])
  {
  }

  lemma DropWakesOwnReceiver(s: System, g: nat)
    requires Good(s) && Enabled(s, Drop(g))
    ensures var t := Next(s, Drop(g));
            && t.issued[g].receiver != Waiting
            && forall h :: 0 <= h < |s.issued| && h != g ==> t.issued[h] == s.issued[h]
  {
  }

  /** Dropping a reservation frees its own slot and wakes its own receiver, and touches no other reservation. */
  lemma DropTouchesOnlyItsOwn(actions: seq<Action>, g: nat)
    requires Enabled(Run(actions), Drop(g))
    ensures var s, t := Run(actions), Next(Run(actions), Drop(g));
            && (forall key :: key in t.state.entries <==> key in s.state.entries && s.state.entries[key] != g)
            && (forall key <- t.state.entries :: t.state.entries[key] == s.state.entries[key])
            && t.issued[g].receiver != Waiting
            && |t.issued| == |s.issued|
            && forall h :: 0 <= h < |s.issued| && h != g ==> t.issued[h] == s.issued[h]
  {
    RunGood(actions);
    DropFreesOwnSlot(Run(actions), g);
    DropWakesOwnReceiver(Run(actions), g);
  }

  /** An acknowledgement answers the one command that is pending under its key, if there is one, and no other. */
  lemma ResolveAnswersThePending(actions: seq<Action>, key: Key, reply: Reply)
    ensures var s, t := Run(actions), Next(Run(actions), Resolve(key, reply));
            && |t.issued| == |s.issued|
            && forall g :: 0 <= g < |s.issued| ==>
                 t.issued[g] == if key in s.state.entries && s.state.entries[key] == g
                                then s.issued[g].(receiver := Answered(reply)) else s.issued[g]
  {
    RunGood(actions);
  }

  /** An owner that waits will be told: its slot exists, so an acknowledgement or a disconnect reaches it. */
  lemma NoWaiterForgotten(actions: seq<Action>, g: nat)
    requires g < |Run(actions).issued| && Run(actions).issued[g].receiver == Waiting
    ensures var s := Run(actions); var key := s.issued[g].key;
            && s.issued[g].held
            && Next(s, Disconnect(key.peer)).issued[g].receiver == Cancelled
            && forall reply :: Next(s, Resolve(key, reply)).issued[g].receiver == Answered(reply)
  {
    RunGood(actions);
  }

  // ---------------------------------------------------------------- how long a reservation waits

  /** The action takes the reservation's entry away. */
  predicate Settles(s: System, a: Action, g: nat)
    requires g < |s.issued|
  {
    var key := s.issued[g].key;
    match a
    case Reserve(_) => false
    case Resolve(k, _) => k == key
    case Disconnect(peer) => peer == key.peer
    case Clear => true
    case Drop(h) => h == g && s.issued[g].held
  }

  lemma NextWaitsIff(s: System, a: Action, g: nat)
    requires Good(s) && g < |s.issued|
    ensures g < |Next(s, a).issued| && Next(s, a).issued[g].key == s.issued[g].key
    ensures Next(s, a).issued[g].receiver == Waiting <==> s.issued[g].receiver == Waiting && !Settles(s, a, g)
  {
  }

  /** The `i`-th action was granted generation `g`. */
  predicate GrantedAt(actions: seq<Action>, i: nat, g: nat) {
    i < |actions| && g == |Run(actions[..i]).issued| < |Run(actions[..i + 1]).issued|
  }

  /** The `j`-th action settles `g`. */
  predicate SettledAt(actions: seq<Action>, j: nat, g: nat)
    requires j < |actions|
  {
    var s := Run(actions[..j]);
    g < |s.issued| && Settles(s, actions[j], g)
  }

  lemma GrantedWaits(s: System, a: Action)
    requires |Next(s, a).issued| > |s.issued|
    ensures Next(s, a).issued[|s.issued|].receiver == Waiting
  {
  }

  lemma PrefixSame(actions: seq<Action>, n: nat, j: nat, g: nat)
    requires j < n <= |actions|
    ensures SettledAt(actions[..n], j, g) == SettledAt(actions, j, g)
  {
    assert actions[..n][..j] == actions[..j];
  }

  /** Nothing after the `i`-th action settles `g`. */
  predicate Unsettled(actions: seq<Action>, i: nat, g: nat) {
    forall j :: i < j < |actions| ==> !SettledAt(actions, j, g)
  }

  lemma UnsettledThen(actions: seq<Action>, i: nat, g: nat)
    requires i < |actions| - 1
    ensures var n := |actions| - 1;
            Unsettled(actions, i, g) <==> Unsettled(actions[..n], i, g) && !SettledAt(actions, n, g)
  {
    var n := |actions| - 1;
    forall j | i < j < n ensures SettledAt(actions[..n], j, g) == SettledAt(actions, j, g) {
      PrefixSame(actions, n, j, g);
    }
  }

  lemma GrantedEarlier(actions: seq<Action>, i: nat, g: nat)
    requires i < |actions| - 1
    ensures GrantedAt(actions[..|actions| - 1], i, g) == GrantedAt(actions, i, g)
  {
    var n := |actions| - 1;
    assert actions[..n][..i] == actions[..i] && actions[..n][..i + 1] == actions[..i + 1];
  }

  /**
   A reservation waits exactly as long as none of these has happened since it was granted: an
   acknowledgement under its key, a disconnect of its peer, a clearing, or its own drop.
   */
  lemma {:induction false} StillWaitsIff(actions: seq<Action>, i: nat, g: nat)
    requires GrantedAt(actions, i, g)
    ensures g < |Run(actions).issued|
    ensures Run(actions).issued[g].receiver == Waiting <==> Unsettled(actions, i, g)
    decreases |actions|
  {
    var n := |actions| - 1;
    RunGood(actions[..n]);
    assert actions[..n + 1] == actions;
    if i < n {
      GrantedEarlier(actions, i, g);
      StillWaitsIff(actions[..n], i, g);
      NextWaitsIff(Run(actions[..n]), actions[n], g);
      UnsettledThen(actions, i, g);
    } else {
      GrantedWaits(Run(actions[..n]), actions[n]);
    }
  }

  /** Every reservation was granted by some action. */
  lemma {:induction false} GrantOf(actions: seq<Action>, g: nat) returns (i: nat)
    requires g < |Run(actions).issued|
    ensures GrantedAt(actions, i, g)
  {
    var n := |actions| - 1;
    assert actions[..n + 1] == actions;
    if g < |Run(actions[..n]).issued| {
      i := GrantOf(actions[..n], g);
      GrantedEarlier(actions, i, g);
    } else {
      i := n;
    }
  }

  /**
   An acknowledgement meant for generation `g` reaches it exactly if `g` still waits, and reaches
   another reservation exactly if that one waits under the same key.
   */
  lemma AcknowledgementReachesIff(actions: seq<Action>, g: nat, h: nat, reply: Reply)
    requires g < |Run(actions).issued| && h < |Run(actions).issued|
    ensures var s := Run(actions); var t := Next(s, Resolve(s.issued[g].key, reply));
            && |t.issued| == |s.issued|
            && (t.issued[g] != s.issued[g] <==> s.issued[g].receiver == Waiting)
            && (t.issued[h] != s.issued[h] <==> s.issued[h].receiver == Waiting && s.issued[h].key == s.issued[g].key)
            && (t.issued[h] != s.issued[h] ==> t.issued[h].receiver == Answered(reply))
            && (h != g && t.issued[h] != s.issued[h] ==> s.issued[g].receiver != Waiting)
  {
    RunGood(actions);
  }

  /**
   Acknowledgements are matched by key only: one that belongs to a command already given up
   answers the next command under the same key.
   */
  lemma LateAcknowledgementAnswersNewer(key: Key)
    ensures var s := Next(Next(Next(INITIAL, Reserve(key)), Drop(0)), Reserve(key));
            && |s.issued| == 2
            && s.issued[0].receiver == Cancelled
            && Next(s, Resolve(key, Acknowledged)).issued[1].receiver == Answered(Acknowledged)
  {
  }
}
