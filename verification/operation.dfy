/**
 Device operations (src/daemon/operation.rs). `OperationCoordinator` is the locked state with one
 method per critical section; `System` adds the workers and reapers that call them, and the
 safety theorems hold after every sequence of `Action`s.
 */
module Operations {
  import opened Wrappers
  import opened Collections

  type Id = string
  type Device = string

  type Owner = Option<string>

  const TERMINAL_LIMIT := 64
  const TOTAL_LIMIT := 256
  const OWNER_LIMIT := 64
  const MAX_REVISION := 0x1f_ffff_ffff_ffff

  datatype Kind = Queued | Started | Progress | Completed | Failed | Cancelled

  /** The adapters and devices as an outcome shows them. */
  type Snapshot = string

  datatype Event = Event(id: Id, revision: nat, owner: Owner, device: Device, kind: Kind, stage: string,
                         snapshot: Option<Snapshot>, error: Option<string>) {
    predicate Terminal() {
      kind == Completed || kind == Failed || kind == Cancelled
    }

    /** A completed operation shows a snapshot, a failed one its error, and anything else neither. */
    predicate Consistent() {
      && (snapshot.Some? <==> kind == Completed)
      && (error.Some? <==> kind == Failed)
    }

    /** The next revision of this operation. */
    function Advanced(k: Kind, s: string): Event {
      this.(revision := revision + 1, kind := k, stage := s)
    }

    function Ended(ending: Ending): Event {
      match ending
      case Returned(result) =>
        var e := match result
          case Ok(shown) => this.(snapshot := Some(shown))
          case Err(reason) => this.(error := Some(reason));
        if e.error.Some? then e.Advanced(Failed, "failed") else e.Advanced(Completed, "completed")
      case Aborted => Advanced(Cancelled, "cancelled")
    }
  }

  datatype Result = Ok(shown: Snapshot) | Err(reason: string)

  /** The backend call has returned, or the worker was stopped before. */
  datatype Ending = Returned(result: Result) | Aborted

  function QueuedEvent(id: Id, owner: Owner, device: Device): Event {
    Event(id, 1, owner, device, Queued, "queued", None, None)
  }

  /** `handle` tells whether the worker's handle has not been taken by a cancellation. */
  datatype Task = Task(handle: bool, event: Event)

  /** The locked state, and every event sent so far. */
  datatype State = State(active: map<Id, Task>, recent: seq<Event>, sent: seq<Event>)

  // ---------------------------------------------------------------- critical sections

  /** Keeps the newest results only. */
  function Record(recent: seq<Event>, e: Event): seq<Event> {
    var all := recent + [e];
    if |all| > TERMINAL_LIMIT then all[|all| - TERMINAL_LIMIT..] else all
  }

  /** Removes the operation and, in the same step, retains and sends its outcome. */
  function Claim(s: State, id: Id, ending: Ending): State {
    if id !in s.active then s
    else
      var e := s.active[id].event.Ended(ending);
      State(s.active - {id}, Record(s.recent, e), s.sent + [e])
  }

  predicate Busy(s: State, device: Device) {
    exists id <- s.active :: s.active[id].event.device == device
  }

  datatype StartReply = Unavailable | DeviceBusy | Accepted(event: Event)

  /** Admission and insertion may be refused by the limits of the operation table. */
  function StartReplyOf(s: State, id: Id, owner: Owner, device: Device, admitted: bool, inserted: bool): StartReply {
    if !admitted then Unavailable
    else if Busy(s, device) then DeviceBusy
    else if !inserted then Unavailable
    else Accepted(QueuedEvent(id, owner, device))
  }

  function AfterStart(s: State, id: Id, reply: StartReply): State {
    if reply.Accepted? then s.(active := s.active[id := Task(true, reply.event)]) else s
  }

  function AfterUpdate(s: State, id: Id, kind: Kind, stage: string): State
    requires id in s.active
  {
    var e := s.active[id].event.Advanced(kind, stage);
    s.(active := s.active[id := s.active[id].(event := e)], sent := s.sent + [e])
  }

  predicate Reportable(s: State, id: Id) {
    id in s.active && s.active[id].handle && s.active[id].event.revision < MAX_REVISION - 1
  }

  datatype CancelReply = NotFound | AlreadyClaimed | Claimed

  function CancelReplyOf(s: State, id: Id, owner: Owner): CancelReply {
    if id !in s.active || s.active[id].event.owner != owner then NotFound
    else if !s.active[id].handle then AlreadyClaimed
    else Claimed
  }

  function AfterCancel(s: State, id: Id, owner: Owner): State {
    if CancelReplyOf(s, id, owner).Claimed? then s.(active := s.active[id := s.active[id].(handle := false)]) else s
  }

  function Retained(recent: seq<Event>, id: Id, owner: Owner): Option<Event> {
    if recent == [] then None
    else
      var last := recent[|recent| - 1];
      if last.id == id && last.owner == owner then Some(last) else Retained(recent[..|recent| - 1], id, owner)
  }

  /** The caller's active operation, or else its retained outcome. */
  function Status(s: State, id: Id, owner: Owner): Option<Event> {
    if id in s.active && s.active[id].event.owner == owner then Some(s.active[id].event)
    else Retained(s.recent, id, owner)
  }

  class OperationCoordinator {
    var active: map<Id, Task>
    var recent: seq<Event>
    var events: seq<Event>

    function View(): State
      reads this
    {
      State(active, recent, events)
    }

    constructor ()
      ensures View() == State(map[], [], [])
    {
      active, recent, events := map[], [], [];
    }

    method Start(id: Id, owner: Owner, device: Device, admitted: bool, inserted: bool) returns (reply: StartReply)
      modifies this
      ensures reply == StartReplyOf(old(View()), id, owner, device, admitted, inserted)
      ensures View() == AfterStart(old(View()), id, reply)
    {
      if !admitted {
        return Unavailable;
      }
      if exists other <- active :: active[other].event.device == device {
        return DeviceBusy;
      }
      var queued := QueuedEvent(id, owner, device);
      if !inserted {
        return Unavailable;
      }
      active := active[id := Task(true, queued)];
      reply := Accepted(queued);
    }

    method PublishStarted(id: Id) returns (found: bool)
      modifies this
      ensures found == (id in old(active))
      ensures View() == if found then AfterUpdate(old(View()), id, Started, "running") else old(View())
    {
      if id !in active {
        return false;
      }
      var event := active[id].event.Advanced(Started, "running");
      active := active[id := active[id].(event := event)];
      events := events + [event];
      found := true;
    }

    method ReportProgress(id: Id, stage: string)
      modifies this
      ensures View() == if Reportable(old(View()), id) then AfterUpdate(old(View()), id, Progress, stage)
                        else old(View())
    {
      // Leaves room for one more revision.
      if id in active && active[id].handle && active[id].event.revision < MAX_REVISION - 1 {
        var event := active[id].event.Advanced(Progress, stage);
        active := active[id := active[id].(event := event)];
        events := events + [event];
      }
    }

    method Finish(id: Id, result: Result)
      modifies this
      ensures View() == Claim(old(View()), id, Returned(result))
    {
      if id in active {
        var event := active[id].event;
        active := active - {id};
        match result {
          case Ok(shown) => event := event.(snapshot := Some(shown));
          case Err(reason) => event := event.(error := Some(reason));
        }
        if event.error.Some? {
          event := event.Advanced(Failed, "failed");
        } else {
          event := event.Advanced(Completed, "completed");
        }
        RetainTerminal(event);
      }
    }

    method RetainTerminal(event: Event)
      modifies this
      ensures active == old(active)
      ensures recent == Record(old(recent), event) && events == old(events) + [event]
    {
      recent := recent + [event];
      if |recent| > TERMINAL_LIMIT {
        recent := recent[|recent| - TERMINAL_LIMIT..];
      }
      events := events + [event];
    }

    /** On `Claimed` the caller aborts the worker and leaves a reaper behind. */
    method Cancel(id: Id, owner: Owner) returns (reply: CancelReply)
      modifies this
      ensures reply == CancelReplyOf(old(View()), id, owner)
      ensures View() == AfterCancel(old(View()), id, owner)
    {
      if id !in active || active[id].event.owner != owner {
        return NotFound;
      }
      if !active[id].handle {
        return AlreadyClaimed;
      }
      active := active[id := active[id].(handle := false)];
      reply := Claimed;
    }

    method Reap(id: Id)
      modifies this
      ensures View() == Claim(old(View()), id, Aborted)
    {
      if id in active {
        var event := active[id].event.Advanced(Cancelled, "cancelled");
        active := active - {id};
        RetainTerminal(event);
      }
    }

    method GetStatus(id: Id, owner: Owner) returns (event: Option<Event>)
      ensures event == Status(View(), id, owner)
    {
      if id in active && active[id].event.owner == owner {
        return Some(active[id].event);
      }
      event := Retained(recent, id, owner);
    }
  }

  // ---------------------------------------------------------------- workers and reapers

  /** A worker waits for its start signal, runs the backend call, and stops by itself or by an abort. */
  datatype Phase = Waiting | Running | Stopped

  /** `claimed` tells whether a cancellation took the handle, `reaper` whether its reaper still waits. */
  datatype Worker = Worker(phase: Phase, owner: Owner, device: Device, claimed: bool, reaper: bool)

  datatype System = System(state: State, workers: map<Id, Worker>)

  const INITIAL := System(State(map[], [], []), map[])

  datatype Action =
    | Start(id: Id, owner: Owner, device: Device, admitted: bool, inserted: bool)
    | PublishStarted(id: Id)
    | ReportProgress(id: Id, stage: string)
    | Finish(id: Id, result: Result)
    | Abort(id: Id)
    | Cancel(id: Id, owner: Owner)
    | Reap(id: Id)
    | Expire(count: nat)

  /**
   When an action can happen. Request ids are fresh; an aborted worker may still pass
   through its critical sections before it stops; progress callbacks may outlive the worker.
   */
  predicate Enabled(s: System, a: Action) {
    match a
    case Start(id, _, _, _, _) => id !in s.workers
    case PublishStarted(id) => id in s.workers && s.workers[id].phase == Waiting
    case ReportProgress(id, _) => id in s.workers && s.workers[id].phase != Waiting
    case Finish(id, _) => id in s.workers && s.workers[id].phase == Running
    case Abort(id) => id in s.workers && s.workers[id].phase != Stopped && s.workers[id].claimed
    case Cancel(_, _) => true
    case Reap(id) => id in s.workers && s.workers[id].phase == Stopped && s.workers[id].reaper
    case Expire(count) => count <= |s.state.recent|
  }

  function SetPhase(s: System, id: Id, phase: Phase): System
    requires id in s.workers
  {
    s.(workers := s.workers[id := s.workers[id].(phase := phase)])
  }

  function Next(s: System, a: Action): System {
    if !Enabled(s, a) then s
    else
      match a
      case Start(id, owner, device, admitted, inserted) =>
        var reply := StartReplyOf(s.state, id, owner, device, admitted, inserted);
        System(AfterStart(s.state, id, reply),
               if reply.Accepted? then s.workers[id := Worker(Waiting, owner, device, false, false)] else s.workers)
      case PublishStarted(id) =>
        if id in s.state.active
        then SetPhase(s.(state := AfterUpdate(s.state, id, Started, "running")), id, Running)
        else SetPhase(s, id, Stopped)
      case ReportProgress(id, stage) =>
        if Reportable(s.state, id) then s.(state := AfterUpdate(s.state, id, Progress, stage)) else s
      case Finish(id, result) => SetPhase(s.(state := Claim(s.state, id, Returned(result))), id, Stopped)
      case Abort(id) => SetPhase(s, id, Stopped)
      case Cancel(id, owner) =>
        System(AfterCancel(s.state, id, owner),
               if CancelReplyOf(s.state, id, owner).Claimed? && id in s.workers
               then s.workers[id := s.workers[id].(claimed := true, reaper := true)] else s.workers)
      case Reap(id) =>
        System(Claim(s.state, id, Aborted), s.workers[id := s.workers[id].(reaper := false)])
      case Expire(count) => s.(state := s.state.(recent := s.state.recent[count..]))
  }

  function Run(actions: seq<Action>): System {
    if actions == [] then INITIAL else Next(Run(actions[..|actions| - 1]), actions[|actions| - 1])
  }

  // ---------------------------------------------------------------- the invariant

  /** The events sent about one operation, oldest first. */
  function History(sent: seq<Event>, id: Id): seq<Event> {
    if sent == [] then []
    else
      var last := sent[|sent| - 1];
      History(sent[..|sent| - 1], id) + (if last.id == id then [last] else [])
  }

  function Outcomes(sent: seq<Event>): seq<Event> {
    if sent == [] then []
    else
      var last := sent[|sent| - 1];
      Outcomes(sent[..|sent| - 1]) + (if last.Terminal() then [last] else [])
  }

  /** Consecutive revisions from 2 on (the receipt is revision 1), `started` first, and no outcome but the last. */
  predicate Orderly(h: seq<Event>, id: Id, w: Worker) {
    && |h| < MAX_REVISION
    && (forall k :: 0 <= k < |h| ==>
        h[k].id == id && h[k].owner == w.owner && h[k].device == w.device && h[k].revision == k + 2)
    && (forall k :: 0 <= k < |h| ==> h[k].kind != Queued && (h[k].kind == Started ==> k == 0))
    && (forall k :: 0 <= k < |h| - 1 ==> !h[k].Terminal())
    && (forall k :: 0 <= k < |h| ==> h[k].Consistent())
  }

  /** An active operation's event is the last one sent, or the receipt while its worker waits. */
  predicate Current(h: seq<Event>, id: Id, t: Task, w: Worker) {
    && !t.event.Terminal()
    && t.event == (if h == [] then QueuedEvent(id, w.owner, w.device) else h[|h| - 1])
    && |h| + 1 < MAX_REVISION
    && (w.phase == Waiting ==> h == [])
    && (w.phase == Running ==> h != [])
    && t.handle == !w.claimed
    && w.claimed == w.reaper
    // Somebody will still finish it.
    && (w.phase == Stopped ==> w.reaper)
  }

  /** An operation that is no longer active has stopped and sent its outcome. */
  predicate Over(h: seq<Event>, w: Worker) {
    && w.phase == Stopped
    && h != []
    && h[|h| - 1].Terminal()
    && (h[|h| - 1].kind == Cancelled ==> w.claimed)
    && (w.reaper ==> w.claimed)
  }

  predicate OperationGood(s: System, id: Id) {
    var h := History(s.state.sent, id);
    if id !in s.workers then h == [] && id !in s.state.active
    else
      && Orderly(h, id, s.workers[id])
      && if id in s.state.active then Current(h, id, s.state.active[id], s.workers[id]) else Over(h, s.workers[id])
  }

  ghost predicate DevicesDistinct(s: State) {
    forall a, b :: a in s.active && b in s.active && a != b ==> s.active[a].event.device != s.active[b].event.device
  }

  predicate Suffix<T(==)>(a: seq<T>, b: seq<T>) {
    |a| <= |b| && a == b[|b| - |a|..]
  }

  /** The retained outcomes are the latest ones. */
  ghost predicate RecentGood(s: State) {
    && |s.recent| <= TERMINAL_LIMIT
    && Suffix(s.recent, Outcomes(s.sent))
  }

  ghost predicate Good(s: System) {
    && (forall id :: OperationGood(s, id))
    && DevicesDistinct(s.state)
    && RecentGood(s.state)
  }

  // ---------------------------------------------------------------- every action keeps it

  lemma HistoryGrows(sent: seq<Event>, e: Event, id: Id)
    ensures History(sent + [e], id) == History(sent, id) + if e.id == id then [e] else []
    ensures Outcomes(sent + [e]) == Outcomes(sent) + if e.Terminal() then [e] else []
  {
    assert (sent + [e])[..|sent|] == sent;
  }

  predicate SameElsewhere<V(==)>(a: map<Id, V>, b: map<Id, V>, id: Id) {
    a - {id} == b - {id}
  }

  lemma UpdatedElsewhere<V>(m: map<Id, V>, id: Id, v: V)
    ensures SameElsewhere(m, m[id := v], id)
  {
  }

  lemma SameAt<V>(a: map<Id, V>, b: map<Id, V>, id: Id, x: Id)
    requires SameElsewhere(a, b, id) && x != id
    ensures x in a <==> x in b
    ensures x in a ==> a[x] == b[x]
  {
    assert x in a <==> x in a - {id};
    assert x in b <==> x in b - {id};
  }

  lemma OtherKept(s: System, t: System, id: Id, more: seq<Event>, x: Id)
    requires OperationGood(s, x) && x != id
    requires t.state.sent == s.state.sent + more && |more| <= 1 && forall e <- more :: e.id == id
    requires SameElsewhere(s.state.active, t.state.active, id) && SameElsewhere(s.workers, t.workers, id)
    ensures OperationGood(t, x)
  {
    SameAt(s.state.active, t.state.active, id, x);
    SameAt(s.workers, t.workers, id, x);
    if more == [] {
      assert t.state.sent == s.state.sent;
    } else {
      HistoryGrows(s.state.sent, more[0], x);
      assert more == [more[0]];
      assert History(s.state.sent, x) + [] == History(s.state.sent, x);
    }
  }

  /** What an action on `id` leaves alone stays good. */
  lemma OthersKept(s: System, t: System, id: Id, more: seq<Event>)
    requires Good(s)
    requires t.state.sent == s.state.sent + more && |more| <= 1 && forall e <- more :: e.id == id
    requires SameElsewhere(s.state.active, t.state.active, id) && SameElsewhere(s.workers, t.workers, id)
    requires OperationGood(t, id)
    ensures forall x :: OperationGood(t, x)
  {
    forall x ensures OperationGood(t, x) {
      if x != id {
        OtherKept(s, t, id, more, x);
      }
    }
  }

  lemma StartKeepsOperation(s: System, id: Id, owner: Owner, device: Device, t: System)
    requires OperationGood(s, id) && id !in s.workers
    requires t == System(AfterStart(s.state, id, Accepted(QueuedEvent(id, owner, device))),
                         s.workers[id := Worker(Waiting, owner, device, false, false)])
    ensures OperationGood(t, id)
  {
  }

  lemma StartKeeps(s: System, id: Id, owner: Owner, device: Device, admitted: bool, inserted: bool)
    requires Good(s) && id !in s.workers
    ensures Good(Next(s, Start(id, owner, device, admitted, inserted)))
  {
    var t := Next(s, Start(id, owner, device, admitted, inserted));
    if StartReplyOf(s.state, id, owner, device, admitted, inserted).Accepted? {
      assert OperationGood(s, id);
      assert t.state.sent == s.state.sent + [];
      StartKeepsOperation(s, id, owner, device, t);
      UpdatedElsewhere(s.state.active, id, t.state.active[id]);
      UpdatedElsewhere(s.workers, id, t.workers[id]);
      OthersKept(s, t, id, []);
    }
  }

  /** Operations may change or leave, but nobody's device changes. */
  lemma DevicesKept(s: State, t: State)
    requires DevicesDistinct(s)
    requires forall x <- t.active :: x in s.active && t.active[x].event.device == s.active[x].event.device
    ensures DevicesDistinct(t)
  {
  }

  lemma UpdateKeeps(s: System, id: Id, kind: Kind, stage: string, t: System)
    requires Good(s) && id in s.state.active && id in s.workers
    requires t == System(AfterUpdate(s.state, id, kind, stage), s.workers[id := s.workers[id].(phase := Running)])
    requires if kind == Started then s.workers[id].phase == Waiting
             else kind == Progress && s.workers[id].phase == Running
    requires s.state.active[id].event.revision < MAX_REVISION - 1
    ensures Good(t)
  {
    var e := s.state.active[id].event.Advanced(kind, stage);
    UpdateKeepsOperation(s, id, kind, stage, t);
    UpdatedElsewhere(s.state.active, id, t.state.active[id]);
    UpdatedElsewhere(s.workers, id, t.workers[id]);
    OthersKept(s, t, id, [e]);
    UpdateKeepsRest(s.state, id, kind, stage);
  }

  lemma UpdateKeepsRest(s: State, id: Id, kind: Kind, stage: string)
    requires DevicesDistinct(s) && RecentGood(s) && id in s.active && (kind == Started || kind == Progress)
    ensures DevicesDistinct(AfterUpdate(s, id, kind, stage)) && RecentGood(AfterUpdate(s, id, kind, stage))
  {
    DevicesKept(s, AfterUpdate(s, id, kind, stage));
    HistoryGrows(s.sent, s.active[id].event.Advanced(kind, stage), id);
    assert Outcomes(s.sent) + [] == Outcomes(s.sent);
  }

  /** One more event, with the next revision, keeps the history orderly. */
  lemma OrderlyGrows(h: seq<Event>, e: Event, id: Id, w: Worker, v: Worker)
    requires Orderly(h, id, w) && |h| + 1 < MAX_REVISION
    requires h == [] || !h[|h| - 1].Terminal()
    requires v.owner == w.owner && v.device == w.device
    requires e.id == id && e.owner == w.owner && e.device == w.device && e.revision == |h| + 2 && e.Consistent()
    requires e.kind != Queued && (e.kind == Started ==> h == [])
    ensures Orderly(h + [e], id, v)
  {
  }

  lemma UpdateKeepsOperation(s: System, id: Id, kind: Kind, stage: string, t: System)
    requires OperationGood(s, id) && id in s.state.active && id in s.workers
    requires t == System(AfterUpdate(s.state, id, kind, stage), s.workers[id := s.workers[id].(phase := Running)])
    requires if kind == Started then s.workers[id].phase == Waiting
             else kind == Progress && s.workers[id].phase == Running
    requires s.state.active[id].event.revision < MAX_REVISION - 1
    ensures OperationGood(t, id)
  {
    var e := s.state.active[id].event.Advanced(kind, stage);
    HistoryGrows(s.state.sent, e, id);
    OrderlyGrows(History(s.state.sent, id), e, id, s.workers[id], t.workers[id]);
  }

  lemma EndedIs(e: Event, ending: Ending)
    requires e.snapshot == None && e.error == None
    ensures var f := e.Ended(ending);
            && f.id == e.id && f.owner == e.owner && f.device == e.device && f.revision == e.revision + 1
            && f.Terminal() && f.Consistent() && (f.kind == Cancelled <==> ending == Aborted)
  {
  }

  /** The worker `v` of an active operation has stopped as `w`, and the operation is claimed. */
  predicate StoppedAs(v: Worker, w: Worker, ending: Ending) {
    && w.phase == Stopped
    && w.owner == v.owner && w.device == v.device && w.claimed == v.claimed
    && (w.reaper || ending == Aborted ==> w.claimed)
  }

  lemma ClaimEnds(h: seq<Event>, id: Id, t: Task, v: Worker, w: Worker, ending: Ending)
    requires Orderly(h, id, v) && Current(h, id, t, v) && StoppedAs(v, w, ending)
    ensures var after := h + [t.event.Ended(ending)];
            Orderly(after, id, w) && Over(after, w)
  {
    var e := t.event.Ended(ending);
    EndedIs(t.event, ending);
    OrderlyGrows(h, e, id, v, w);
    assert (h + [e])[|h|] == e;
  }

  lemma ClaimKeepsOperation(s: System, id: Id, ending: Ending, w: Worker)
    requires OperationGood(s, id) && id in s.workers && id in s.state.active
    requires StoppedAs(s.workers[id], w, ending)
    ensures OperationGood(System(Claim(s.state, id, ending), s.workers[id := w]), id)
  {
    HistoryGrows(s.state.sent, s.state.active[id].event.Ended(ending), id);
    ClaimEnds(History(s.state.sent, id), id, s.state.active[id], s.workers[id], w, ending);
  }

  lemma ClaimKeepsState(s: State, id: Id, ending: Ending)
    requires DevicesDistinct(s) && RecentGood(s)
    requires id in s.active ==> s.active[id].event.Ended(ending).Terminal()
    ensures DevicesDistinct(Claim(s, id, ending)) && RecentGood(Claim(s, id, ending))
  {
    DevicesKept(s, Claim(s, id, ending));
    if id in s.active {
      RecordKeeps(s, s.active[id].event.Ended(ending));
    }
  }

  lemma ClaimedElsewhere(s: System, id: Id, ending: Ending, w: Worker)
    ensures SameElsewhere(s.state.active, Claim(s.state, id, ending).active, id)
    ensures SameElsewhere(s.workers, s.workers[id := w], id)
  {
  }

  lemma ClaimKeeps(s: System, id: Id, ending: Ending, w: Worker)
    requires Good(s) && id in s.workers && StoppedAs(s.workers[id], w, ending)
    ensures Good(System(Claim(s.state, id, ending), s.workers[id := w]))
  {
    var t := System(Claim(s.state, id, ending), s.workers[id := w]);
    assert OperationGood(s, id);
    ClaimedElsewhere(s, id, ending, w);
    if id in s.state.active {
      EndedIs(s.state.active[id].event, ending);
      ClaimKeepsOperation(s, id, ending, w);
      OthersKept(s, t, id, [s.state.active[id].event.Ended(ending)]);
    } else {
      assert t.state.sent == s.state.sent + [];
      OthersKept(s, t, id, []);
    }
    ClaimKeepsState(s.state, id, ending);
  }

  lemma RecordKeeps(s: State, e: Event)
    requires RecentGood(s) && e.Terminal()
    ensures |Record(s.recent, e)| <= TERMINAL_LIMIT && Suffix(Record(s.recent, e), Outcomes(s.sent + [e]))
  {
    HistoryGrows(s.sent, e, e.id);
    RecordSuffix(s.recent, Outcomes(s.sent), e);
  }

  lemma RecordSuffix(recent: seq<Event>, all: seq<Event>, e: Event)
    requires Suffix(recent, all) && |recent| <= TERMINAL_LIMIT
    ensures |Record(recent, e)| <= TERMINAL_LIMIT && Suffix(Record(recent, e), all + [e])
  {
    SuffixGrows(recent, all, e);
    if |recent| == TERMINAL_LIMIT {
      SuffixShrinks(recent + [e], all + [e], 1);
    }
  }

  lemma SuffixGrows<T>(a: seq<T>, b: seq<T>, x: T)
    requires Suffix(a, b)
    ensures Suffix(a + [x], b + [x])
  {
  }

  lemma SuffixShrinks<T>(a: seq<T>, b: seq<T>, n: nat)
    requires Suffix(a, b) && n <= |a|
    ensures Suffix(a[n..], b)
  {
    assert a[n..] == b[|b| - |a|..][n..];
  }

  lemma ExpireKeeps(s: System, count: nat)
    requires Good(s) && count <= |s.state.recent|
    ensures Good(Next(s, Expire(count)))
  {
    var t := Next(s, Expire(count));
    forall x ensures OperationGood(t, x) {
      assert OperationGood(s, x);
    }
    SuffixShrinks(s.state.recent, Outcomes(s.state.sent), count);
  }

  /** The handle of an operation is taken for a cancellation. */
  function HandleTaken(s: System, id: Id): System
    requires id in s.state.active && id in s.workers
  {
    System(s.state.(active := s.state.active[id := s.state.active[id].(handle := false)]),
           s.workers[id := s.workers[id].(claimed := true, reaper := true)])
  }

  lemma HandleTakenKeepsOperation(s: System, id: Id)
    requires OperationGood(s, id) && id in s.state.active && id in s.workers && s.state.active[id].handle
    ensures OperationGood(HandleTaken(s, id), id)
  {
  }

  lemma HandleTakenKeeps(s: System, id: Id)
    requires Good(s) && id in s.state.active && id in s.workers && s.state.active[id].handle
    ensures Good(HandleTaken(s, id))
  {
    var t := HandleTaken(s, id);
    assert t.state.sent == s.state.sent + [];
    UpdatedElsewhere(s.state.active, id, t.state.active[id]);
    UpdatedElsewhere(s.workers, id, t.workers[id]);
    HandleTakenKeepsOperation(s, id);
    OthersKept(s, t, id, []);
    DevicesKept(s.state, t.state);
  }

  lemma CancelKeeps(s: System, id: Id, owner: Owner)
    requires Good(s)
    ensures Good(Next(s, Cancel(id, owner)))
  {
    assert OperationGood(s, id);
    if CancelReplyOf(s.state, id, owner).Claimed? {
      HandleTakenKeeps(s, id);
    }
  }

  lemma AbortKeeps(s: System, id: Id)
    requires Good(s) && Enabled(s, Abort(id))
    ensures Good(Next(s, Abort(id)))
  {
    var t := Next(s, Abort(id));
    assert OperationGood(s, id);
    assert t.state.sent == s.state.sent + [];
    assert OperationGood(t, id);
    OthersKept(s, t, id, []);
  }

  lemma NextKeeps(s: System, a: Action)
    requires Good(s)
    ensures Good(Next(s, a))
  {
    if Enabled(s, a) {
      match a
      case Start(id, owner, device, admitted, inserted) => StartKeeps(s, id, owner, device, admitted, inserted);
      case PublishStarted(id) =>
        assert OperationGood(s, id);
        UpdateKeeps(s, id, Started, "running", Next(s, a));
      case ReportProgress(id, stage) =>
        if Reportable(s.state, id) {
          assert OperationGood(s, id);
          assert s.workers[id := s.workers[id].(phase := Running)] == s.workers;
          UpdateKeeps(s, id, Progress, stage, Next(s, a));
        }
      case Finish(id, result) =>
        assert OperationGood(s, id);
        ClaimKeeps(s, id, Returned(result), s.workers[id].(phase := Stopped));
      case Abort(id) => AbortKeeps(s, id);
      case Cancel(id, owner) => CancelKeeps(s, id, owner);
      case Reap(id) =>
        assert OperationGood(s, id);
        ClaimKeeps(s, id, Aborted, s.workers[id].(reaper := false));
      case Expire(count) => ExpireKeeps(s, count);
    }
  }

  /** The invariant holds after every run. */
  lemma {:induction false} RunGood(actions: seq<Action>)
    ensures Good(Run(actions))
  {
    if actions != [] {
      RunGood(actions[..|actions| - 1]);
      NextKeeps(Run(actions[..|actions| - 1]), actions[|actions| - 1]);
    }
  }

  // ---------------------------------------------------------------- what every run guarantees

  /** Where the `i`-th event sent stands in its operation's history. */
  lemma {:induction false} HistoryIndex(sent: seq<Event>, i: nat) returns (k: nat)
    requires i < |sent|
    ensures k == |History(sent[..i], sent[i].id)|
    ensures k < |History(sent, sent[i].id)| && History(sent, sent[i].id)[k] == sent[i]
  {
    k := |History(sent[..i], sent[i].id)|;
    var n := |sent| - 1;
    if i < n {
      assert sent[..n][..i] == sent[..i];
      var j := HistoryIndex(sent[..n], i);
    }
  }

  lemma {:induction false} HistoryLonger(sent: seq<Event>, i: nat, j: nat)
    requires i < j <= |sent|
    ensures |History(sent[..i], sent[i].id)| < |History(sent[..j], sent[i].id)|
  {
    assert sent[..j][..j - 1] == sent[..j - 1];
    if i < j - 1 {
      HistoryLonger(sent, i, j - 1);
    }
  }

  /** No operation is heard of after its outcome, and its revisions only grow and stay exact. */
  lemma RevisionsIncrease(actions: seq<Action>, i: nat, j: nat)
    requires var sent := Run(actions).state.sent; i < j < |sent| && sent[i].id == sent[j].id
    ensures var sent := Run(actions).state.sent;
            !sent[i].Terminal() && 1 < sent[i].revision < sent[j].revision <= MAX_REVISION
  {
    var s := Run(actions);
    RunGood(actions);
    var a := HistoryIndex(s.state.sent, i);
    var b := HistoryIndex(s.state.sent, j);
    HistoryLonger(s.state.sent, i, j);
    assert OperationGood(s, s.state.sent[i].id);
  }

  lemma {:induction false} NoOutcomes(h: seq<Event>)
    requires forall k :: 0 <= k < |h| ==> !h[k].Terminal()
    ensures Outcomes(h) == []
  {
    if h != [] {
      NoOutcomes(h[..|h| - 1]);
    }
  }

  lemma OutcomeIsLast(h: seq<Event>)
    requires forall k :: 0 <= k < |h| - 1 ==> !h[k].Terminal()
    ensures |Outcomes(h)| == if h != [] && h[|h| - 1].Terminal() then 1 else 0
  {
    if h != [] {
      NoOutcomes(h[..|h| - 1]);
    }
  }

  /** An accepted operation is either active without an outcome, or has exactly one outcome. */
  lemma ExactlyOneOutcome(actions: seq<Action>, id: Id)
    requires id in Run(actions).workers
    ensures |Outcomes(History(Run(actions).state.sent, id))| == if id in Run(actions).state.active then 0 else 1
  {
    RunGood(actions);
    assert OperationGood(Run(actions), id);
    OutcomeIsLast(History(Run(actions).state.sent, id));
  }

  /** The step from `s` to `t` retains and sends one outcome of `id`, whose worker has stopped. */
  predicate EndsWith(s: System, t: System, id: Id, e: Event)
    requires id in s.state.active
  {
    && e.Terminal() && e.id == id && e.revision == s.state.active[id].event.revision + 1
    && t.state.sent == s.state.sent + [e]
    && t.state.recent == Record(s.state.recent, e)
    && id in t.workers && t.workers[id].phase == Stopped
  }

  lemma LeavingEnds(s: System, a: Action, id: Id) returns (e: Event)
    requires OperationGood(s, id)
    requires id in s.state.active && id !in Next(s, a).state.active
    ensures EndsWith(s, Next(s, a), id, e)
  {
    var t := Next(s, a);
    e := t.state.sent[|s.state.sent|];
  }

  /** An operation ceases to be active only in the step that retains and sends its outcome, with its worker stopped. */
  lemma LeavesWithOutcome(actions: seq<Action>, a: Action, id: Id)
    requires id in Run(actions).state.active && id !in Next(Run(actions), a).state.active
    ensures exists e :: EndsWith(Run(actions), Next(Run(actions), a), id, e)
  {
    RunGood(actions);
    var e := LeavingEnds(Run(actions), a, id);
  }

  lemma LiveWorkerHoldsDevice(s: System, id: Id)
    requires OperationGood(s, id) && id in s.workers && s.workers[id].phase != Stopped
    ensures Busy(s.state, s.workers[id].device)
  {
    assert s.state.active[id].event.device == s.workers[id].device;
  }

  lemma BusyRefused(s: System, a: Action)
    requires a.Start? && Busy(s.state, a.device)
    ensures Next(s, a) == s
    ensures a.admitted ==> StartReplyOf(s.state, a.id, a.owner, a.device, a.admitted, a.inserted) == DeviceBusy
  {
  }

  /** While a worker has not stopped, cancelled or not, no other operation on its device is accepted. */
  lemma DeviceHeldUntilStopped(actions: seq<Action>, id: Id, a: Action)
    requires id in Run(actions).workers && Run(actions).workers[id].phase != Stopped
    requires a.Start? && a.device == Run(actions).workers[id].device
    ensures Next(Run(actions), a) == Run(actions)
    ensures var s := Run(actions).state;
            a.admitted ==> StartReplyOf(s, a.id, a.owner, a.device, a.admitted, a.inserted) == DeviceBusy
  {
    RunGood(actions);
    LiveWorkerHoldsDevice(Run(actions), id);
    BusyRefused(Run(actions), a);
  }

  /** What is published carries a snapshot exactly if the operation completed, and an error exactly if it failed. */
  lemma OutcomeCarriesResult(actions: seq<Action>, i: nat)
    requires i < |Run(actions).state.sent|
    ensures Run(actions).state.sent[i].Consistent()
  {
    var s := Run(actions);
    RunGood(actions);
    var k := HistoryIndex(s.state.sent, i);
    assert OperationGood(s, s.state.sent[i].id);
  }

  /** An operation ends as cancelled only if somebody cancelled it. */
  lemma CancelledWasRequested(actions: seq<Action>, id: Id)
    requires id in Run(actions).workers && id !in Run(actions).state.active
    ensures Latest(Run(actions), id).Terminal()
    ensures Latest(Run(actions), id).kind == Cancelled ==> Run(actions).workers[id].claimed
  {
    RunGood(actions);
    assert OperationGood(Run(actions), id);
  }

  /** A waiting worker always finds its operation, so no accepted work is dropped unheard. */
  lemma StartedIsFound(actions: seq<Action>, id: Id)
    requires Enabled(Run(actions), PublishStarted(id))
    ensures id in Run(actions).state.active
    ensures Next(Run(actions), PublishStarted(id)).workers[id].phase == Running
  {
    RunGood(actions);
    assert OperationGood(Run(actions), id);
  }

  /** Steps that bring an active operation to its outcome. */
  function Remaining(s: System, id: Id): seq<Action>
    requires id in s.workers
  {
    match s.workers[id].phase
    case Waiting => [PublishStarted(id), Finish(id, Ok(""))]
    case Running => [Finish(id, Ok(""))]
    case Stopped => [Reap(id)]
  }

  lemma WaitingEnds(actions: seq<Action>, id: Id)
    requires id in Run(actions).state.active && id in Run(actions).workers && Run(actions).workers[id].phase == Waiting
    ensures id !in Run(actions + [PublishStarted(id), Finish(id, Ok(""))]).state.active
  {
    RunThen(actions, PublishStarted(id));
    RunThen(actions + [PublishStarted(id)], Finish(id, Ok("")));
    assert actions + [PublishStarted(id)] + [Finish(id, Ok(""))] == actions + [PublishStarted(id), Finish(id, Ok(""))];
  }

  lemma RunningEnds(actions: seq<Action>, id: Id)
    requires id in Run(actions).workers && Run(actions).workers[id].phase == Running
    ensures id !in Run(actions + [Finish(id, Ok(""))]).state.active
  {
    RunThen(actions, Finish(id, Ok("")));
  }

  lemma StoppedEnds(actions: seq<Action>, id: Id)
    requires Enabled(Run(actions), Reap(id))
    ensures id !in Run(actions + [Reap(id)]).state.active
  {
    RunThen(actions, Reap(id));
  }

  /** An active operation never gets stuck: its worker or its reaper can still end it. */
  lemma CanAlwaysEnd(actions: seq<Action>, id: Id)
    requires id in Run(actions).state.active
    ensures id in Run(actions).workers
    ensures id !in Run(actions + Remaining(Run(actions), id)).state.active
  {
    var s := Run(actions);
    RunGood(actions);
    assert OperationGood(s, id);
    match s.workers[id].phase
    case Waiting => WaitingEnds(actions, id);
    case Running => RunningEnds(actions, id);
    case Stopped => StoppedEnds(actions, id);
  }

  lemma RunThen(actions: seq<Action>, a: Action)
    ensures Run(actions + [a]) == Next(Run(actions), a)
  {
    assert (actions + [a])[..|actions|] == actions;
  }

  /** Once a cancellation has taken the handle, no more progress is reported. */
  lemma ClaimedReportsNothing(actions: seq<Action>, id: Id, stage: string)
    requires id in Run(actions).workers && Run(actions).workers[id].claimed
    ensures Next(Run(actions), ReportProgress(id, stage)) == Run(actions)
  {
    RunGood(actions);
    assert OperationGood(Run(actions), id);
  }

  predicate ClaimedFor(s: State, id: Id, owner: Owner) {
    id in s.active && s.active[id].event.owner == owner ==> !s.active[id].handle
  }

  /** Other owners' operations are untouched. */
  ghost predicate OthersUntouched(s: State, t: State, owner: Owner) {
    && s.active.Keys == t.active.Keys
    && forall id <- s.active :: t.active[id].event == s.active[id].event
                                && (s.active[id].event.owner != owner ==> t.active[id] == s.active[id])
  }

  /** A cancellation claims its own operation, publishes nothing by itself and leaves other owners alone. */
  lemma CancelClaims(s: System, id: Id, owner: Owner, other: Id)
    ensures ClaimedFor(Next(s, Cancel(id, owner)).state, id, owner)
    ensures ClaimedFor(s.state, other, owner) ==> ClaimedFor(Next(s, Cancel(id, owner)).state, other, owner)
    ensures OthersUntouched(s.state, Next(s, Cancel(id, owner)).state, owner)
    ensures Next(s, Cancel(id, owner)).state.sent == s.state.sent
  {
  }

  /** Once claimed, an operation stays claimed until it is gone, and ids are not used again. */
  lemma ClaimedStays(s: System, a: Action, id: Id, owner: Owner)
    requires id in s.workers && ClaimedFor(s.state, id, owner)
    ensures id in Next(s, a).workers && ClaimedFor(Next(s, a).state, id, owner)
  {
  }

  lemma {:induction false} AcceptedStays(actions: seq<Action>, i: nat, id: Id)
    requires i <= |actions| && id in Run(actions[..i]).workers
    ensures id in Run(actions).workers
  {
    if i < |actions| {
      assert actions[..|actions| - 1][..i] == actions[..i];
      AcceptedStays(actions[..|actions| - 1], i, id);
    } else {
      assert actions[..i] == actions;
    }
  }

  /** A cancellation anywhere in a run claims its operation for good. */
  lemma {:induction false} CancellationHolds(actions: seq<Action>, i: nat, id: Id, owner: Owner)
    requires i < |actions| && actions[i] == Cancel(id, owner) && id in Run(actions[..i]).workers
    ensures id in Run(actions).workers && ClaimedFor(Run(actions).state, id, owner)
    decreases |actions|
  {
    var n := |actions| - 1;
    if i < n {
      assert actions[..n][..i] == actions[..i];
      CancellationHolds(actions[..n], i, id, owner);
      ClaimedStays(Run(actions[..n]), actions[n], id, owner);
    } else {
      CancelClaims(Run(actions[..n]), id, owner, id);
    }
  }

  /**
   After the loss of an owner, whatever else happens between its cancellations, each operation it had
   is claimed or gone once its cancellation has run, and stays so.
   */
  lemma OwnerLossClaims(before: seq<Action>, after: seq<Action>, ids: seq<Id>, owner: Owner)
    requires forall id <- ids :: id in Run(before).workers && Cancel(id, owner) in after
    ensures forall id <- ids :: ClaimedFor(Run(before + after).state, id, owner)
  {
    forall id | id in ids ensures ClaimedFor(Run(before + after).state, id, owner) {
      var j :| 0 <= j < |after| && after[j] == Cancel(id, owner);
      var actions, i := before + after, |before| + j;
      assert actions[..i][..|before|] == before;
      AcceptedStays(actions[..i], |before|, id);
      CancellationHolds(actions, i, id, owner);
    }
  }

  // ---------------------------------------------------------------- status reads

  /** The last that was said about an operation: its receipt or the last event sent. */
  function Latest(s: System, id: Id): Event
    requires id in s.workers
  {
    var h := History(s.state.sent, id);
    if h == [] then QueuedEvent(id, s.workers[id].owner, s.workers[id].device) else h[|h| - 1]
  }

  lemma {:induction false} RetainedFinds(recent: seq<Event>, id: Id, owner: Owner)
    ensures match Retained(recent, id, owner)
            case Some(e) => e in recent && e.id == id && e.owner == owner
            case None => forall e <- recent :: e.id != id || e.owner != owner
  {
    if recent != [] {
      RetainedFinds(recent[..|recent| - 1], id, owner);
    }
  }

  lemma {:induction false} OutcomeInHistory(sent: seq<Event>, e: Event)
    requires e in Outcomes(sent)
    ensures e.Terminal() && e in History(sent, e.id)
  {
    if e in Outcomes(sent[..|sent| - 1]) {
      OutcomeInHistory(sent[..|sent| - 1], e);
    }
  }

  lemma RetainedIsLatest(s: System, e: Event)
    requires Good(s) && e in s.state.recent
    ensures e.id in s.workers && e.id !in s.state.active
    ensures e == Latest(s, e.id) && e.owner == s.workers[e.id].owner
  {
    assert e in Outcomes(s.state.sent);
    OutcomeInHistory(s.state.sent, e);
    assert OperationGood(s, e.id);
  }

  predicate Visible(s: System, id: Id, owner: Owner, e: Event) {
    && id in s.workers
    && s.workers[id].owner == owner
    && e == Latest(s, id)
    && (id in s.state.active || e in s.state.recent)
  }

  lemma StatusIff(s: System, id: Id, owner: Owner, e: Event)
    requires Good(s)
    ensures Status(s.state, id, owner) == Some(e) <==> Visible(s, id, owner, e)
  {
    assert OperationGood(s, id);
    RetainedFinds(s.state.recent, id, owner);
    var r := Retained(s.state.recent, id, owner);
    if e in s.state.recent {
      RetainedIsLatest(s, e);
    }
    if r.Some? {
      RetainedIsLatest(s, r.value);
    }
  }

  /**
   A status read answers exactly the owner, with the latest word on the operation, and only
   while it is active or its outcome is still retained.
   */
  lemma StatusExact(actions: seq<Action>, id: Id, owner: Owner, e: Event)
    ensures Status(Run(actions).state, id, owner) == Some(e) <==> Visible(Run(actions), id, owner, e)
  {
    RunGood(actions);
    StatusIff(Run(actions), id, owner, e);
  }

  // ---------------------------------------------------------------- admission limits

  function OwnedBy(s: State, owner: Owner): set<Id> {
    set id | id in s.active && s.active[id].event.owner == owner
  }

  /** There is room for one more operation, in all and of the owner. */
  predicate HasRoom(s: State, owner: Owner) {
    |s.active.Keys| < TOTAL_LIMIT && |OwnedBy(s, owner)| < OWNER_LIMIT
  }

  predicate WithinLimits(s: State, owner: Owner) {
    |s.active.Keys| <= TOTAL_LIMIT && |OwnedBy(s, owner)| <= OWNER_LIMIT
  }

  /** Nothing but a start adds an operation, and nobody's operation changes hands. */
  lemma OnlyStartsAdd(s: System, a: Action, owner: Owner)
    requires !a.Start?
    ensures Next(s, a).state.active.Keys <= s.state.active.Keys
    ensures OwnedBy(Next(s, a).state, owner) <= OwnedBy(s.state, owner)
  {
  }

  lemma StartAddsOne(s: System, a: Action, owner: Owner)
    requires a.Start? && Next(s, a).state.active != s.state.active
    ensures a.admitted && a.inserted
    ensures Next(s, a).state.active.Keys == s.state.active.Keys + {a.id}
    ensures OwnedBy(Next(s, a).state, owner) <= OwnedBy(s.state, owner) + if a.owner == owner then {a.id} else {}
  {
  }

  /** The operation table admits and inserts only where there is room. */
  predicate AdmitsWithRoom(actions: seq<Action>) {
    forall i :: 0 <= i < |actions| && actions[i].Start? && actions[i].admitted && actions[i].inserted ==>
      HasRoom(Run(actions[..i]).state, actions[i].owner)
  }

  /** With such a table there are never more than 256 operations active, nor more than 64 of one owner. */
  lemma {:induction false} LimitsHold(actions: seq<Action>, owner: Owner)
    requires AdmitsWithRoom(actions)
    ensures WithinLimits(Run(actions).state, owner)
  {
    if actions != [] {
      var n := |actions| - 1;
      var before, a := actions[..n], actions[n];
      assert forall i :: 0 <= i < n ==> before[..i] == actions[..i];
      LimitsHold(before, owner);
      var s, t := Run(before), Next(Run(before), a);
      if !a.Start? {
        OnlyStartsAdd(s, a, owner);
        SubsetSize(t.state.active.Keys, s.state.active.Keys);
        SubsetSize(OwnedBy(t.state, owner), OwnedBy(s.state, owner));
      } else if t.state.active != s.state.active {
        StartAddsOne(s, a, owner);
        SubsetSize(OwnedBy(t.state, owner), OwnedBy(s.state, owner) + if a.owner == owner then {a.id} else {});
      }
    }
  }
}
