/**
 The identity writer thread (src/identity/persistence.rs): a slot for the latest state, a wake-up
 channel of capacity one and flush barriers. Each method of `Writer` is one atomic section of a
 scheduler, a flusher or the writer thread; `System` interleaves them.
 */
module IdentityWriter {
  import opened Wrappers
  import opened Collections

  const CAPACITY := 1

  /** Scheduled states are numbered in the order in which they fill the slot. */
  type Version = nat
  type FlushId = nat

  datatype Message = Changed | Flush(id: FlushId)

  /** Where the writer thread is: `barriers` are the flushes it will answer. */
  datatype Phase =
    | Idle
    | Collecting(barriers: seq<FlushId>)
    | Collected(barriers: seq<FlushId>)
    | Writing(version: Version, barriers: seq<FlushId>)
    | Replying(barriers: seq<FlushId>)
    | Exited

  datatype State = State(pending: Option<Version>, queue: seq<Message>, closed: bool, phase: Phase,
                         lastError: Option<string>)

  function BarriersOf(p: Phase): seq<FlushId> {
    match p
    case Idle => []
    case Collecting(barriers) => barriers
    case Collected(barriers) => barriers
    case Writing(_, barriers) => barriers
    case Replying(barriers) => barriers
    case Exited => []
  }

  function Barrier(m: Message): seq<FlushId> {
    if m.Flush? then [m.id] else []
  }

  function AfterNotify(s: State): State {
    if |s.queue| < CAPACITY then s.(queue := s.queue + [Changed]) else s
  }

  function AfterReceive(s: State): State
    requires s.queue != []
  {
    s.(queue := s.queue[1..], phase := Collecting(BarriersOf(s.phase) + Barrier(s.queue[0])))
  }

  function AfterTake(s: State): State {
    var barriers := BarriersOf(s.phase);
    s.(pending := None, phase := if s.pending.Some? then Writing(s.pending.value, barriers) else Replying(barriers))
  }

  class Writer {
    var pending: Option<Version>
    var queue: seq<Message>
    var closed: bool
    var phase: Phase
    var lastError: Option<string>

    function View(): State
      reads this
    {
      State(pending, queue, closed, phase, lastError)
    }

    constructor ()
      ensures View() == State(None, [], false, Idle, None)
    {
      pending, queue, closed, phase, lastError := None, [], false, Idle, None;
    }

    /** The first half of scheduling: the newest state replaces any older one. */
    method Fill(version: Version)
      modifies this
      ensures View() == old(View()).(pending := Some(version))
    {
      pending := Some(version);
    }

    /** The second half: a wake-up that may be dropped, but never blocks. */
    method TrySend()
      modifies this
      ensures View() == AfterNotify(old(View()))
    {
      if |queue| < CAPACITY {
        queue := queue + [Changed];
      }
    }

    /** A flush blocks until there is room. */
    method Send(id: FlushId)
      requires |queue| < CAPACITY
      modifies this
      ensures View() == old(View()).(queue := old(queue) + [Flush(id)])
    {
      queue := queue + [Flush(id)];
    }

    /** The first message of a round, or a further one drained from the channel. */
    method Receive()
      requires queue != [] && (phase.Idle? || phase.Collecting?)
      modifies this
      ensures View() == AfterReceive(old(View()))
    {
      var barriers := BarriersOf(phase);
      phase := Collecting(barriers + Barrier(queue[0]));
      queue := queue[1..];
    }

    method Take()
      requires phase.Collected?
      modifies this
      ensures View() == AfterTake(old(View()))
    {
      var latest := pending;
      pending := None;
      if latest.Some? {
        phase := Writing(latest.value, phase.barriers);
      } else {
        phase := Replying(phase.barriers);
      }
    }

    method Persist(error: Option<string>)
      requires phase.Writing?
      modifies this
      ensures View() == old(View()).(phase := Replying(old(phase).barriers), lastError := error)
    {
      lastError := error;
      phase := Replying(phase.barriers);
    }

    /** Answers one barrier with the result of the last write. */
    method Reply() returns (id: FlushId, error: Option<string>)
      requires phase.Replying? && phase.barriers != []
      modifies this
      ensures id == old(phase).barriers[0] && error == old(lastError)
      ensures View() == old(View()).(phase := Replying(old(phase).barriers[1..]))
    {
      id, error := phase.barriers[0], lastError;
      phase := Replying(phase.barriers[1..]);
    }
  }

  // ---------------------------------------------------------------- interleavings

  /** `mark` is the number of states scheduled when the flush was sent. */
  datatype FlushState = Waiting | Sent(mark: Version) | Answered(mark: Version, error: Option<string>)

  /**
   The shared state; how many states were scheduled, how many schedulers are between filling the
   slot and waking the writer; the flushes; the last version attempted, and the last one written.
   */
  datatype System = System(state: State, scheduled: Version, notifying: nat, flushes: map<FlushId, FlushState>,
                           attempted: Version, disk: Version)

  const INITIAL := System(State(None, [], false, Idle, None), 0, 0, map[], 0, 0)

  datatype Action =
    | Schedule
    | Notify
    | BeginFlush(id: FlushId)
    | SendFlush(id: FlushId)
    | Receive
    | StopCollecting
    | Take
    | Persist(error: Option<string>)
    | Reply
    | Rest
    | Close
    | Exit

  predicate Outstanding(f: FlushState) {
    f.Waiting? || f.Sent?
  }

  predicate Enabled(s: System, a: Action) {
    var st := s.state;
    match a
    case Schedule => !st.closed
    case Notify => s.notifying > 0
    case BeginFlush(id) => !st.closed && id !in s.flushes
    case SendFlush(id) => id in s.flushes && s.flushes[id].Waiting? && |st.queue| < CAPACITY
    case Receive => st.queue != [] && (st.phase.Idle? || st.phase.Collecting?)
    case StopCollecting => st.phase.Collecting? && st.queue == []
    case Take => st.phase.Collected?
    case Persist(_) => st.phase.Writing?
    case Reply => st.phase.Replying? && st.phase.barriers != [] && st.phase.barriers[0] in s.flushes
                  && s.flushes[st.phase.barriers[0]].Sent?
    case Rest => st.phase.Replying? && st.phase.barriers == []
    // Dropping the writer needs exclusive access: nobody is scheduling or flushing.
    case Close => !st.closed && s.notifying == 0 && forall id <- s.flushes :: !Outstanding(s.flushes[id])
    case Exit => st.phase.Idle? && st.queue == [] && st.closed
  }

  function Next(s: System, a: Action): System {
    if !Enabled(s, a) then s
    else
      var st := s.state;
      match a
      case Schedule =>
        s.(state := st.(pending := Some(s.scheduled + 1)), scheduled := s.scheduled + 1, notifying := s.notifying + 1)
      case Notify => s.(state := AfterNotify(st), notifying := s.notifying - 1)
      case BeginFlush(id) => s.(flushes := s.flushes[id := Waiting])
      case SendFlush(id) =>
        s.(state := st.(queue := st.queue + [Flush(id)]), flushes := s.flushes[id := Sent(s.scheduled)])
      case Receive => s.(state := AfterReceive(st))
      case StopCollecting => s.(state := st.(phase := Collected(st.phase.barriers)))
      case Take => s.(state := AfterTake(st))
      case Persist(error) =>
        s.(state := st.(phase := Replying(st.phase.barriers), lastError := error), attempted := st.phase.version,
           disk := if error.None? then st.phase.version else s.disk)
      case Reply =>
        var id := st.phase.barriers[0];
        s.(state := st.(phase := Replying(st.phase.barriers[1..])),
           flushes := s.flushes[id := Answered(s.flushes[id].mark, st.lastError)])
      case Rest => s.(state := st.(phase := Idle))
      case Close => s.(state := st.(closed := true))
      case Exit => s.(state := st.(phase := Exited))
  }

  function Run(actions: seq<Action>): System {
    if actions == [] then INITIAL else Next(Run(actions[..|actions| - 1]), actions[|actions| - 1])
  }

  // ---------------------------------------------------------------- the invariant

  /** The writer has received a message and has not yet looked into the slot. */
  predicate BeforeTake(p: Phase) {
    p.Collecting? || p.Collected?
  }

  /** Somebody will look into the slot. */
  predicate Woken(s: System) {
    s.state.queue != [] || BeforeTake(s.state.phase) || s.notifying > 0
  }

  /** The version that the writer has taken last. */
  function Taken(s: System): Version {
    if s.state.phase.Writing? then s.state.phase.version else s.attempted
  }

  predicate SlotGood(s: System) {
    if s.state.pending.Some? then s.state.pending.value == s.scheduled && Taken(s) < s.scheduled && Woken(s)
    else Taken(s) == s.scheduled
  }

  predicate DiskGood(s: System) {
    && s.disk <= s.attempted <= Taken(s)
    && (s.state.lastError.None? ==> s.disk == s.attempted)
  }

  /** The flushes on their way: still in the channel, or among the writer's barriers. */
  function Travelling(s: State): seq<FlushId> {
    BarriersOf(s.phase) + (if s.queue == [] then [] else Barrier(s.queue[0]))
  }

  /** The writer has taken every state scheduled before the flush was sent. */
  predicate MarkTaken(s: System, id: FlushId) {
    id in s.flushes && s.flushes[id].Sent? ==> s.flushes[id].mark <= Taken(s)
  }

  /** A flush that was sent is on its way, and the states scheduled before it will be covered. */
  ghost predicate FlushesGood(s: System) {
    && |s.state.queue| <= CAPACITY
    && Distinct(Travelling(s.state))
    && (forall id :: OnTheirWay(Travelling(s.state), s.flushes, id))
    && (forall id <- s.flushes :: s.flushes[id].Sent? ==> s.flushes[id].mark <= s.scheduled)
    && (s.state.phase.Writing? || s.state.phase.Replying? ==>
        forall id <- BarriersOf(s.state.phase) :: MarkTaken(s, id))
    && (forall id <- s.flushes ::
          s.flushes[id].Answered? && s.flushes[id].error.None? ==> s.flushes[id].mark <= s.disk)
  }

  predicate ClosedGood(s: System) {
    && (s.state.closed ==> s.notifying == 0 && forall id <- s.flushes :: !Outstanding(s.flushes[id]))
    && (s.state.phase.Exited? ==> s.state.closed && s.state.queue == [])
  }

  ghost predicate Good(s: System) {
    SlotGood(s) && DiskGood(s) && FlushesGood(s) && ClosedGood(s)
  }

  lemma NextKeepsSlot(s: System, a: Action)
    requires SlotGood(s) && DiskGood(s) && ClosedGood(s)
    ensures SlotGood(Next(s, a)) && DiskGood(Next(s, a)) && ClosedGood(Next(s, a))
  {
  }

  lemma ReceiveMoves(s: State)
    requires 0 < |s.queue| <= CAPACITY && (s.phase.Idle? || s.phase.Collecting?)
    ensures Travelling(AfterReceive(s)) == Travelling(s)
  {
  }

  /** Flushes enter the way to their answer at its end and leave it at its front. */
  lemma TravellingMoves(s: System, a: Action)
    requires Enabled(s, a) && |s.state.queue| <= CAPACITY
    ensures |Next(s, a).state.queue| <= CAPACITY
    ensures a.Reply? ==> Travelling(s.state) != [] && Travelling(s.state)[0] == s.state.phase.barriers[0]
    ensures Travelling(Next(s, a).state) == if a.SendFlush? then Travelling(s.state) + [a.id]
                                            else if a.Reply? then Travelling(s.state)[1..]
                                            else Travelling(s.state)
  {
    if a.Receive? {
      ReceiveMoves(s.state);
    }
  }

  lemma DistinctAppend(way: seq<FlushId>, id: FlushId)
    requires Distinct(way) && id !in way
    ensures Distinct(way + [id])
    ensures forall x :: x in way + [id] <==> x in way || x == id
  {
  }

  lemma DistinctTail(way: seq<FlushId>)
    requires Distinct(way) && way != []
    ensures Distinct(way[1..])
    ensures forall x :: x in way[1..] <==> x in way && x != way[0]
  {
    assert way == [way[0]] + way[1..];
  }

  predicate OnTheirWay(way: seq<FlushId>, flushes: map<FlushId, FlushState>, id: FlushId) {
    id in way <==> id in flushes && flushes[id].Sent?
  }

  lemma NextKeepsTravelling(s: System, a: Action)
    requires FlushesGood(s)
    ensures |Next(s, a).state.queue| <= CAPACITY
    ensures Distinct(Travelling(Next(s, a).state))
    ensures forall id :: OnTheirWay(Travelling(Next(s, a).state), Next(s, a).flushes, id)
  {
    var t := Next(s, a);
    if Enabled(s, a) {
      TravellingMoves(s, a);
      if a.SendFlush? {
        assert OnTheirWay(Travelling(s.state), s.flushes, a.id);
        DistinctAppend(Travelling(s.state), a.id);
      } else if a.Reply? {
        DistinctTail(Travelling(s.state));
      }
    }
    forall id ensures OnTheirWay(Travelling(t.state), t.flushes, id) {
      assert OnTheirWay(Travelling(s.state), s.flushes, id);
    }
  }

  /** The states scheduled before a flush are taken with it or earlier. */
  lemma NextKeepsMarks(s: System, a: Action)
    requires Good(s)
    ensures var t := Next(s, a);
            && (forall id <- t.flushes :: t.flushes[id].Sent? ==> t.flushes[id].mark <= t.scheduled)
            && (t.state.phase.Writing? || t.state.phase.Replying? ==>
                forall id <- BarriersOf(t.state.phase) :: MarkTaken(t, id))
  {
    if a.SendFlush? {
      assert OnTheirWay(Travelling(s.state), s.flushes, a.id);
    }
    var t := Next(s, a);
    forall id | id in BarriersOf(t.state.phase) && (t.state.phase.Writing? || t.state.phase.Replying?)
      ensures MarkTaken(t, id)
    {
      assert id in BarriersOf(s.state.phase);
      assert id in Travelling(s.state);
      assert s.state.phase.Writing? || s.state.phase.Replying? ==> MarkTaken(s, id);
    }
  }

  /** A flush is answered without an error only if what it waited for is on disk. */
  lemma NextKeepsAnswers(s: System, a: Action)
    requires Good(s)
    ensures var t := Next(s, a);
            forall id <- t.flushes ::
              t.flushes[id].Answered? && t.flushes[id].error.None? ==> t.flushes[id].mark <= t.disk
  {
    if a.Reply? && Enabled(s, a) {
      assert MarkTaken(s, s.state.phase.barriers[0]);
    }
  }

  lemma NextKeepsFlushes(s: System, a: Action)
    requires Good(s)
    ensures FlushesGood(Next(s, a))
  {
    NextKeepsTravelling(s, a);
    NextKeepsMarks(s, a);
    NextKeepsAnswers(s, a);
  }

  lemma {:induction false} RunGood(actions: seq<Action>)
    ensures Good(Run(actions))
  {
    if actions != [] {
      RunGood(actions[..|actions| - 1]);
      NextKeepsSlot(Run(actions[..|actions| - 1]), actions[|actions| - 1]);
      NextKeepsFlushes(Run(actions[..|actions| - 1]), actions[|actions| - 1]);
    }
  }

  // ---------------------------------------------------------------- what every interleaving guarantees

  /** No wake-up is lost: while a state is pending, somebody will look into the slot. */
  lemma NoLostWakeUp(actions: seq<Action>)
    ensures Run(actions).state.pending.Some? ==> Woken(Run(actions))
  {
    RunGood(actions);
  }

  /** Once the writer has ended, nothing is pending, the last state was attempted and every flush is answered. */
  lemma NothingLeftBehind(actions: seq<Action>)
    requires Run(actions).state.phase.Exited?
    ensures var s := Run(actions);
            && s.state.pending.None?
            && s.attempted == s.scheduled
            && (s.state.lastError.None? ==> s.disk == s.scheduled)
            && forall id <- s.flushes :: s.flushes[id].Answered?
  {
    RunGood(actions);
  }

  /** A flush that succeeds follows a write at least as new as every state scheduled before it was sent. */
  lemma FlushCovers(actions: seq<Action>, id: FlushId)
    requires var s := Run(actions); id in s.flushes && s.flushes[id].Answered? && s.flushes[id].error.None?
    ensures Run(actions).flushes[id].mark <= Run(actions).disk
  {
    RunGood(actions);
  }

  /** What the writer or a scheduler can do next. */
  function Progress(s: System): Action {
    match s.state.phase
    case Idle => if s.state.queue != [] then Receive else Notify
    case Collecting(_) => if s.state.queue != [] then Receive else StopCollecting
    case Collected(_) => Take
    case Writing(_, _) => Persist(None)
    case Replying(barriers) => if barriers == [] then Rest else Reply
    case Exited => Notify
  }

  lemma WriterGoesOn(s: System)
    requires Good(s) && !s.state.phase.Exited? && (s.state.phase.Idle? ==> s.state.queue != [])
    ensures Enabled(s, Progress(s))
  {
    if s.state.phase.Replying? && s.state.phase.barriers != [] {
      assert s.state.phase.barriers[0] == Travelling(s.state)[0];
      assert OnTheirWay(Travelling(s.state), s.flushes, s.state.phase.barriers[0]);
    }
  }

  /** The threads never block each other: a pending state or a sent flush leaves a step to take. */
  lemma NoDeadlock(actions: seq<Action>)
    requires var s := Run(actions); s.state.pending.Some? || exists id <- s.flushes :: s.flushes[id].Sent?
    ensures Enabled(Run(actions), Progress(Run(actions)))
  {
    var s := Run(actions);
    RunGood(actions);
    if id :| id in s.flushes && s.flushes[id].Sent? {
      assert OnTheirWay(Travelling(s.state), s.flushes, id);
    }
    if !s.state.phase.Idle? || s.state.queue != [] {
      WriterGoesOn(s);
    }
  }

  /** A flush that waits for room is only held up while the channel is full, which the writer empties. */
  lemma FlusherGetsRoom(actions: seq<Action>, id: FlushId)
    requires var s := Run(actions); id in s.flushes && s.flushes[id].Waiting?
    ensures var s := Run(actions);
            Enabled(s, SendFlush(id)) || (s.state.phase.Idle? || s.state.phase.Collecting? ==> Enabled(s, Receive))
    ensures !Run(actions).state.phase.Exited?
  {
    RunGood(actions);
  }

  // ---------------------------------------------------------------- it can always come to rest

  /** Nothing is pending or being written, and every flush is answered. */
  predicate Settled(s: System) {
    && s.state.pending.None?
    && !s.state.phase.Writing?
    && forall id <- s.flushes :: s.flushes[id].Answered?
  }

  /** Finishes what was begun: wake-ups and sends that are due, and the writer's own steps. */
  predicate Finishing(a: Action) {
    !a.Schedule? && !a.BeginFlush? && !a.Close? && !a.Exit?
  }

  function WaitingFlushes(s: System): set<FlushId> {
    set id | id in s.flushes && s.flushes[id].Waiting?
  }

  /** How far the writer is from resting. */
  function Distance(p: Phase): nat {
    match p
    case Idle => 0
    case Collecting(barriers) => |barriers| + 4
    case Collected(barriers) => |barriers| + 3
    case Writing(_, barriers) => |barriers| + 2
    case Replying(barriers) => |barriers| + 1
    case Exited => 0
  }

  /** One more flush has been sent, or else one more wake-up, or the writer has come further. */
  predicate Closer(s: System, t: System) {
    || |WaitingFlushes(t)| < |WaitingFlushes(s)|
    || (WaitingFlushes(t) == WaitingFlushes(s) && FurtherOn(s, t))
  }

  predicate FurtherOn(s: System, t: System) {
    || t.notifying < s.notifying
    || (t.notifying == s.notifying && |t.state.queue| < |s.state.queue|)
    || (t.notifying == s.notifying && |t.state.queue| == |s.state.queue|
        && Distance(t.state.phase) < Distance(s.state.phase))
  }

  lemma SendLeavesFewerWaiting(s: System, id: FlushId)
    requires Enabled(s, SendFlush(id))
    ensures |WaitingFlushes(Next(s, SendFlush(id)))| < |WaitingFlushes(s)|
  {
    assert WaitingFlushes(Next(s, SendFlush(id))) == WaitingFlushes(s) - {id};
  }

  lemma ProgressKeepsWaiting(s: System)
    requires Enabled(s, Progress(s))
    ensures WaitingFlushes(Next(s, Progress(s))) == WaitingFlushes(s)
  {
  }

  lemma ProgressComesCloser(s: System)
    requires Enabled(s, Progress(s)) && |s.state.queue| <= CAPACITY
    ensures FurtherOn(s, Next(s, Progress(s)))
  {
  }

  lemma RunThen(actions: seq<Action>, a: Action)
    ensures Run(actions + [a]) == Next(Run(actions), a)
  {
    assert (actions + [a])[..|actions|] == actions;
  }

  lemma SettledOrStep(s: System) returns (a: Action)
    requires Good(s) && !Settled(s)
    ensures Enabled(s, a) && (a.SendFlush? || a == Progress(s))
  {
    a := Progress(s);
    if s.state.phase.Exited? || (s.state.phase.Idle? && s.state.queue == []) {
      assert s.state.pending.Some? ==> Woken(s);
      if id :| id in s.flushes && s.flushes[id].Waiting? {
        a := SendFlush(id);
      } else if id :| id in s.flushes && s.flushes[id].Sent? {
        assert OnTheirWay(Travelling(s.state), s.flushes, id);
      }
    } else {
      WriterGoesOn(s);
    }
  }

  /** `t` goes on from `s` without beginning anything new. */
  predicate Continues(s: seq<Action>, t: seq<Action>) {
    s <= t && forall i :: |s| <= i < |t| ==> Finishing(t[i])
  }

  lemma NextCloser(s: System) returns (a: Action)
    requires Good(s) && !Settled(s)
    ensures Finishing(a) && Next(s, a).scheduled == s.scheduled && Closer(s, Next(s, a))
  {
    a := SettledOrStep(s);
    if a.SendFlush? {
      SendLeavesFewerWaiting(s, a.id);
    } else {
      ProgressKeepsWaiting(s);
      ProgressComesCloser(s);
    }
  }

  /** Before all is settled, a flush can be sent, or the writer or a scheduler can go on. */
  lemma StepCloser(actions: seq<Action>) returns (longer: seq<Action>)
    requires !Settled(Run(actions))
    ensures Continues(actions, longer)
    ensures Run(longer).scheduled == Run(actions).scheduled && Closer(Run(actions), Run(longer))
  {
    RunGood(actions);
    var a := NextCloser(Run(actions));
    RunThen(actions, a);
    longer := actions + [a];
  }

  lemma {:induction false} SettlesFrom(actions: seq<Action>, s: System) returns (longer: seq<Action>)
    requires s == Run(actions)
    ensures Continues(actions, longer)
    ensures Settled(Run(longer)) && Run(longer).scheduled == s.scheduled
    decreases |WaitingFlushes(s)|, s.notifying, |s.state.queue|, Distance(s.state.phase)
  {
    longer := actions;
    if !Settled(s) {
      var next := StepCloser(actions);
      longer := SettlesFrom(next, Run(next));
    }
  }

  /** Whatever has happened, the writer can still attempt the last state and answer every flush. */
  lemma CanAlwaysSettle(actions: seq<Action>) returns (longer: seq<Action>)
    ensures Continues(actions, longer) && Settled(Run(longer))
    ensures Run(longer).attempted == Run(longer).scheduled == Run(actions).scheduled
  {
    longer := SettlesFrom(actions, Run(actions));
    RunGood(longer);
  }
}
