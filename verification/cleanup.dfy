/**
 The end of a Fast Pair stream (`connection_ended` in src/fast_pair.rs) is three critical sections: the
 link is released, the pending commands of the peer are cancelled, and what the peer has reported is
 forgotten. Between them a replacement stream may start, report and reserve commands of its own.
 */
module StreamCleanup {
  import opened Wrappers
  import Links = FastPairLinks
  import Commands = PendingCommands

  type Peer = string
  type Nonce = nat

  /** What concerns the session nonces, in order: one was reported, or a cleanup has forgotten the peer. */
  datatype Note = Reported(peer: Peer, nonce: Nonce) | Forgotten(peer: Peer)

  /**
   A stream that has released its link and not yet forgotten its peer. `mark` counts the reservations
   made before and `noted` the notes.
   */
  datatype Cleanup = Cleanup(peer: Peer, mark: nat, noted: nat, disconnected: bool)

  /** `runtime` names the report of the nonce in force, if any, by its place among the notes. */
  datatype System = System(links: Links.System, commands: Commands.System, runtime: map<Peer, Option<nat>>,
                           notes: seq<Note>, cleanups: seq<Cleanup>)

  const INITIAL := System(Links.INITIAL, Commands.INITIAL, map[], [], [])

  datatype Action =
    | Link(link: Links.Action)
    | Command(command: Commands.Action)
    | Open(p: Peer)
    | Report(p: Peer, nonce: Nonce)
    | Disconnect(k: nat)
    | Forget(k: nat)

  /** Readers open and fill their peer's entry; pending commands are only ever disconnected by a cleanup. */
  predicate Enabled(s: System, a: Action) {
    match a
    case Link(_) => true
    case Command(command) => !command.Disconnect?
    case Open(p) => p in s.links.readers
    case Report(p, _) => p in s.links.readers
    case Disconnect(k) => k < |s.cleanups| && !s.cleanups[k].disconnected
    case Forget(k) => k < |s.cleanups| && s.cleanups[k].disconnected
  }

  function Next(s: System, a: Action): System {
    if !Enabled(s, a) then s
    else match a
      case Link(link) =>
        s.(links := Links.Next(s.links, link),
           cleanups := if link.event.ReaderEnded? && Links.Enabled(s.links, link)
                       then s.cleanups + [Cleanup(link.event.p, |s.commands.issued|, |s.notes|, false)]
                       else s.cleanups)
      case Command(command) => s.(commands := Commands.Next(s.commands, command))
      case Open(p) => s.(runtime := if p in s.runtime then s.runtime else s.runtime[p := None])
      case Report(p, nonce) =>
        s.(runtime := s.runtime[p := Some(|s.notes|)], notes := s.notes + [Reported(p, nonce)])
      case Disconnect(k) =>
        s.(commands := Commands.Next(s.commands, Commands.Disconnect(s.cleanups[k].peer)),
           cleanups := s.cleanups[k := s.cleanups[k].(disconnected := true)])
      case Forget(k) =>
        var p := s.cleanups[k].peer;
        s.(runtime := s.runtime - {p}, notes := s.notes + [Forgotten(p)],
           cleanups := s.cleanups[..k] + s.cleanups[k + 1..])
  }

  function Run(actions: seq<Action>): System {
    if actions == [] then INITIAL else Next(Run(actions[..|actions| - 1]), actions[|actions| - 1])
  }

  /** What one action does to the pending commands. */
  function Effect(s: System, a: Action): seq<Commands.Action> {
    if !Enabled(s, a) then []
    else match a
      case Command(command) => [command]
      case Disconnect(k) => [Commands.Disconnect(s.cleanups[k].peer)]
      case _ => []
  }

  /** The history of the pending commands. */
  function CommandHistory(actions: seq<Action>): seq<Commands.Action> {
    if actions == [] then []
    else
      var n := |actions| - 1;
      CommandHistory(actions[..n]) + Effect(Run(actions[..n]), actions[n])
  }

  lemma CommandsThen(history: seq<Commands.Action>, a: Commands.Action)
    ensures Commands.Run(history + [a]) == Commands.Next(Commands.Run(history), a)
  {
    assert (history + [a])[..|history|] == history;
  }

  lemma {:induction false} CommandsFollowHistory(actions: seq<Action>)
    ensures Run(actions).commands == Commands.Run(CommandHistory(actions))
  {
    if actions != [] {
      var n := |actions| - 1;
      var effect := Effect(Run(actions[..n]), actions[n]);
      CommandsFollowHistory(actions[..n]);
      if effect == [] {
        assert CommandHistory(actions[..n]) + effect == CommandHistory(actions[..n]);
      } else {
        assert effect == [effect[0]];
        CommandsThen(CommandHistory(actions[..n]), effect[0]);
      }
    }
  }

  lemma RunThen(actions: seq<Action>, a: Action)
    ensures Run(actions + [a]) == Next(Run(actions), a)
  {
    assert (actions + [a])[..|actions|] == actions;
  }

  /** In `history`, `g` was granted to a command of the peer and nothing has settled it since. */
  ghost predicate StillPending(history: seq<Commands.Action>, g: nat, peer: string) {
    && g < |Commands.Run(history).issued|
    && Commands.Run(history).issued[g].key.peer == peer
    && exists i :: Commands.GrantedAt(history, i, g) && Commands.Unsettled(history, i, g)
  }

  lemma PendingIff(history: seq<Commands.Action>, g: nat, peer: string)
    requires g < |Commands.Run(history).issued|
    ensures StillPending(history, g, peer)
       <==> && Commands.Run(history).issued[g].receiver == Commands.Waiting
            && Commands.Run(history).issued[g].key.peer == peer
  {
    var i := Commands.GrantOf(history, g);
    Commands.StillWaitsIff(history, i, g);
    forall j | Commands.GrantedAt(history, j, g)
      ensures Commands.Unsettled(history, j, g) <==> Commands.Run(history).issued[g].receiver == Commands.Waiting
    {
      Commands.StillWaitsIff(history, j, g);
    }
  }

  lemma DisconnectCancels(s: Commands.System, peer: string, g: nat)
    requires Commands.Good(s) && g < |s.issued|
    ensures var t := Commands.Next(s, Commands.Disconnect(peer));
            && |t.issued| == |s.issued|
            && t.issued[g] == if s.issued[g].receiver == Commands.Waiting && s.issued[g].key.peer == peer
                              then s.issued[g].(receiver := Commands.Cancelled) else s.issued[g]
  {
  }

  /**
   A cleanup cancels a command exactly if it is of the same peer and, since it was reserved, it was
   neither acknowledged nor dropped, and nothing cleared or disconnected it.
   */
  lemma CleanupCancelsIff(actions: seq<Action>, k: nat, g: nat)
    requires Enabled(Run(actions), Disconnect(k)) && g < |Run(actions).commands.issued|
    ensures var before, after := Run(actions).commands.issued, Run(actions + [Disconnect(k)]).commands.issued;
            && |after| == |before|
            && (after[g] != before[g] <==> StillPending(CommandHistory(actions), g, Run(actions).cleanups[k].peer))
            && (after[g] != before[g] ==> after[g].receiver == Commands.Cancelled)
  {
    var s := Run(actions);
    RunThen(actions, Disconnect(k));
    CommandsFollowHistory(actions);
    Commands.RunGood(CommandHistory(actions));
    PendingIff(CommandHistory(actions), g, s.cleanups[k].peer);
    DisconnectCancels(s.commands, s.cleanups[k].peer, g);
  }

  /** The cleanup cancels a command that was reserved after its stream had released the link. */
  ghost predicate HitsLaterCommand(actions: seq<Action>, k: nat)
    requires Enabled(Run(actions), Disconnect(k))
  {
    var before, after := Run(actions).commands.issued, Run(actions + [Disconnect(k)]).commands.issued;
    exists g :: Run(actions).cleanups[k].mark <= g < |before| && g < |after| && after[g] != before[g]
  }

  /**
   An old stream's cleanup leaves the commands of a replacement stream alone exactly if none of those
   reserved for the peer since the link was released is still pending.
   */
  lemma SparesReplacementIff(actions: seq<Action>, k: nat)
    requires Enabled(Run(actions), Disconnect(k))
    ensures var c := Run(actions).cleanups[k];
            !HitsLaterCommand(actions, k) <==>
            forall g :: c.mark <= g < |Run(actions).commands.issued| ==>
              !StillPending(CommandHistory(actions), g, c.peer)
  {
    forall g: nat | g < |Run(actions).commands.issued|
      ensures var before, after := Run(actions).commands.issued, Run(actions + [Disconnect(k)]).commands.issued;
              && |after| == |before|
              && (after[g] != before[g] <==> StillPending(CommandHistory(actions), g, Run(actions).cleanups[k].peer))
    {
      CleanupCancelsIff(actions, k, g);
    }
    if |Run(actions).commands.issued| > 0 {
      CleanupCancelsIff(actions, k, 0);
    }
  }

  /** What the cleanup is for: no command of the ended stream waits any longer. */
  lemma OldCommandsEnd(actions: seq<Action>, k: nat, g: nat)
    requires Enabled(Run(actions), Disconnect(k))
    requires g < Run(actions).cleanups[k].mark && g < |Run(actions).commands.issued|
    requires Run(actions).commands.issued[g].key.peer == Run(actions).cleanups[k].peer
    ensures g < |Run(actions + [Disconnect(k)]).commands.issued|
    ensures Run(actions + [Disconnect(k)]).commands.issued[g].receiver != Commands.Waiting
  {
    CleanupCancelsIff(actions, k, g);
    CommandsFollowHistory(actions);
    PendingIff(CommandHistory(actions), g, Run(actions).cleanups[k].peer);
  }

  // ---------------------------------------------------------------- the session nonce

  /** Authenticated commands need the nonce. */
  function SessionNonce(s: System, p: Peer): Option<Nonce> {
    if p in s.runtime && s.runtime[p].Some? && s.runtime[p].value < |s.notes| && s.notes[s.runtime[p].value].Reported?
    then Some(s.notes[s.runtime[p].value].nonce) else None
  }

  /** Nothing concerns the peer after the `m`-th note. */
  predicate Latest(notes: seq<Note>, m: nat, p: Peer) {
    m < |notes| && notes[m].peer == p && forall i :: m < i < |notes| ==> notes[i].peer != p
  }

  /** The entry names the latest note about the peer if that is a report, and nothing if it was forgotten since. */
  ghost predicate NamesLatest(s: System, p: Peer) {
    && (p in s.runtime && s.runtime[p].Some? ==>
          Latest(s.notes, s.runtime[p].value, p) && s.notes[s.runtime[p].value].Reported?)
    && (forall m: nat :: Latest(s.notes, m, p) && s.notes[m].Reported? ==> p in s.runtime && s.runtime[p] == Some(m))
  }

  lemma LatestThen(notes: seq<Note>, n: Note, m: nat, p: Peer)
    ensures Latest(notes + [n], m, p) <==> if n.peer == p then m == |notes| else Latest(notes, m, p)
  {
    if Latest(notes + [n], m, p) && n.peer != p {
      assert forall i :: m < i < |notes| ==> notes[i] == (notes + [n])[i];
    }
    assert (notes + [n])[|notes|] == n;
  }

  lemma NoteKeepsLatest(s: System, t: System, n: Note, p: Peer)
    requires NamesLatest(s, p) && t.notes == s.notes + [n]
    requires t.runtime == if n.Reported? then s.runtime[n.peer := Some(|s.notes|)] else s.runtime - {n.peer}
    ensures NamesLatest(t, p)
  {
    forall m: nat ensures Latest(t.notes, m, p) <==> if n.peer == p then m == |s.notes| else Latest(s.notes, m, p) {
      LatestThen(s.notes, n, m, p);
    }
  }

  lemma NextNamesLatest(s: System, a: Action, p: Peer)
    requires NamesLatest(s, p)
    ensures NamesLatest(Next(s, a), p)
  {
    if Enabled(s, a) {
      if a.Report? {
        NoteKeepsLatest(s, Next(s, a), Reported(a.p, a.nonce), p);
      } else if a.Forget? {
        NoteKeepsLatest(s, Next(s, a), Forgotten(s.cleanups[a.k].peer), p);
      }
    }
  }

  lemma {:induction false} RunNamesLatest(actions: seq<Action>, p: Peer)
    ensures NamesLatest(Run(actions), p)
  {
    if actions != [] {
      RunNamesLatest(actions[..|actions| - 1], p);
      NextNamesLatest(Run(actions[..|actions| - 1]), actions[|actions| - 1], p);
    }
  }

  /** A nonce is in force exactly if it was reported for the peer, and nothing has replaced or forgotten it since. */
  lemma NonceInForceIff(actions: seq<Action>, p: Peer, nonce: Nonce)
    ensures var s := Run(actions);
            SessionNonce(s, p) == Some(nonce) <==>
            exists m: nat :: Latest(s.notes, m, p) && s.notes[m] == Reported(p, nonce)
  {
    RunNamesLatest(actions, p);
  }

  /** A nonce reported after the cleanup's stream had released the link, by a replacement, is in force. */
  predicate ReplacementNonce(s: System, c: Cleanup) {
    c.peer in s.runtime && s.runtime[c.peer].Some? && c.noted <= s.runtime[c.peer].value
  }

  /**
   What a cleanup forgets last leaves no nonce in force. It takes one from a replacement stream exactly if
   a nonce was reported after the link was released and nothing about the peer was noted since.
   */
  lemma ForgetTakesNonceIff(actions: seq<Action>, k: nat)
    requires Enabled(Run(actions), Forget(k))
    ensures var s, t := Run(actions), Run(actions + [Forget(k)]); var c := s.cleanups[k];
            && SessionNonce(t, c.peer) == None
            && (forall p :: p != c.peer ==> SessionNonce(t, p) == SessionNonce(s, p))
            && (ReplacementNonce(s, c) <==>
                exists m: nat :: c.noted <= m && Latest(s.notes, m, c.peer) && s.notes[m].Reported?)
  {
    RunThen(actions, Forget(k));
    RunNamesLatest(actions, Run(actions).cleanups[k].peer);
    forall p | p != Run(actions).cleanups[k].peer
      ensures SessionNonce(Run(actions + [Forget(k)]), p) == SessionNonce(Run(actions), p)
    {
      RunNamesLatest(actions, p);
    }
  }

  function At(event: Links.Event): Action {
    Link(Links.Action(event, 0, 0))
  }

  /** A stream is replaced while its cleanup is outstanding. */
  function Replaced(p: Peer): System {
    Next(Next(Next(INITIAL, At(Links.IncomingStream(p))), At(Links.ReaderEnded(p))), At(Links.IncomingStream(p)))
  }

  lemma ReplacedStreams(p: Peer)
    ensures Replaced(p).cleanups == [Cleanup(p, 0, 0, false)] && Replaced(p).notes == []
    ensures Replaced(p).commands == Commands.INITIAL
    ensures Links.Streaming(Replaced(p).links.state, p) && Replaced(p).links.readers[p] == 1
  {
  }

  /**
   It does happen: a stream ends, its replacement is accepted and reserves a command, and only then
   does the old stream's cleanup run.
   */
  lemma ReplacementHit(key: Commands.Key)
    ensures var reserved := Next(Replaced(key.peer), Command(Commands.Reserve(key)));
            var hit := Next(reserved, Disconnect(0));
            && Replaced(key.peer).cleanups[0].mark == 0 && |hit.commands.issued| == 1
            && Links.Streaming(hit.links.state, key.peer)
            && reserved.commands.issued[0].receiver == Commands.Waiting
            && hit.commands.issued[0].receiver == Commands.Cancelled
  {
    ReplacedStreams(key.peer);
    ReservedThenHit(Replaced(key.peer), key);
  }

  lemma ReservedThenHit(s: System, key: Commands.Key)
    requires |s.cleanups| == 1 && s.cleanups[0].peer == key.peer && !s.cleanups[0].disconnected
    requires s.commands == Commands.INITIAL
    ensures var reserved := Next(s, Command(Commands.Reserve(key)));
            var hit := Next(reserved, Disconnect(0));
            && hit.links == s.links && |reserved.commands.issued| == |hit.commands.issued| == 1
            && reserved.commands.issued[0].receiver == Commands.Waiting
            && hit.commands.issued[0].receiver == Commands.Cancelled
  {
  }

  lemma ReportedThenForgotten(s: System, nonce: Nonce)
    requires |s.cleanups| == 1 && !s.cleanups[0].disconnected
    requires s.cleanups[0].peer in s.links.readers && s.cleanups[0].noted <= |s.notes|
    ensures var p := s.cleanups[0].peer; var reported := Next(s, Report(p, nonce));
            var forgotten := Next(Next(reported, Disconnect(0)), Forget(0));
            && SessionNonce(reported, p) == Some(nonce) && ReplacementNonce(reported, s.cleanups[0])
            && forgotten.links == s.links && SessionNonce(forgotten, p) == None
  {
  }

  /** So does this: the replacement reports its nonce before the old stream's cleanup forgets the peer. */
  lemma ReplacementNonceTaken(p: Peer, nonce: Nonce)
    ensures var reported := Next(Replaced(p), Report(p, nonce));
            var forgotten := Next(Next(reported, Disconnect(0)), Forget(0));
            && SessionNonce(reported, p) == Some(nonce) && ReplacementNonce(reported, Replaced(p).cleanups[0])
            && Links.Streaming(forgotten.links.state, p) && forgotten.links.readers[p] == 1
            && SessionNonce(forgotten, p) == None
  {
    ReplacedStreams(p);
    ReportedThenForgotten(Replaced(p), nonce);
  }
}
