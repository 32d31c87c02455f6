/** Watermarks of published state (src/daemon/published.rs): revisions within epochs, and their lineage. */
module PublishedState {
  import opened Wrappers

  const MAX_REVISION := 0x1f_ffff_ffff_ffff

  /** Epochs are unique identifiers; a fresh one has never been used before. */
  type Epoch = string

  datatype Watermark = Watermark(epoch: Epoch, revision: nat, previousEpoch: Option<Epoch>)

  datatype Published<T> = Published(value: T, watermark: Watermark)

  function Created<T>(value: T, epoch: Epoch): Published<T> {
    Published(value, Watermark(epoch, 1, None))
  }

  /** `epoch` is the identifier drawn should the revisions be used up. */
  function Updated<T(==)>(current: Published<T>, next: T, epoch: Epoch): Published<T> {
    var w := current.watermark;
    if current.value == next then current
    else if w.revision == MAX_REVISION then Published(next, Watermark(epoch, 1, Some(w.epoch)))
    else Published(next, w.(revision := w.revision + 1))
  }

  class Publisher<T(==)> {
    var value: T
    var epoch: Epoch
    var revision: nat
    var previousEpoch: Option<Epoch>

    function Current(): Published<T>
      reads this
    {
      Published(value, Watermark(epoch, revision, previousEpoch))
    }

    constructor (initial: T, id: Epoch)
      ensures Current() == Created(initial, id)
    {
      value, epoch, revision, previousEpoch := initial, id, 1, None;
    }

    /** Whether watchers are notified. */
    method Update(next: T, id: Epoch) returns (changed: bool)
      modifies this
      ensures Current() == Updated(old(Current()), next, id)
      ensures changed <==> old(value) != next
    {
      if value == next {
        return false;
      }
      if revision == MAX_REVISION {
        previousEpoch := Some(epoch);
        epoch := id;
        revision := 1;
      } else {
        revision := revision + 1;
      }
      value := next;
      changed := true;
    }
  }

  // ---------------------------------------------------------------- runs

  /** The published state and all epochs used so far, oldest first. */
  datatype System<T> = System(current: Published<T>, epochs: seq<Epoch>)

  datatype Step<T> = Step(next: T, epoch: Epoch)

  /** An update; an identifier already used cannot be drawn. */
  function Next<T(==)>(s: System<T>, step: Step<T>): System<T> {
    if step.epoch in s.epochs then s
    else
      var after := Updated(s.current, step.next, step.epoch);
      System(after, if after.watermark.epoch == s.current.watermark.epoch then s.epochs else s.epochs + [step.epoch])
  }

  function Run<T(==)>(initial: T, epoch: Epoch, steps: seq<Step<T>>): System<T> {
    if steps == [] then System(Created(initial, epoch), [epoch])
    else Next(Run(initial, epoch, steps[..|steps| - 1]), steps[|steps| - 1])
  }

  predicate Good<T>(s: System<T>) {
    && s.epochs != []
    && (forall i, j :: 0 <= i < j < |s.epochs| ==> s.epochs[i] != s.epochs[j])
    && 1 <= s.current.watermark.revision <= MAX_REVISION
    && s.current.watermark.epoch == s.epochs[|s.epochs| - 1]
    && s.current.watermark.previousEpoch
       == (if |s.epochs| == 1 then None else Some(s.epochs[|s.epochs| - 2]))
  }

  /** `t` comes after `s`: later epochs are appended, and within one epoch only the revision decides. */
  predicate NotBefore<T(==)>(s: System<T>, t: System<T>) {
    && |s.epochs| <= |t.epochs|
    && s.epochs == t.epochs[..|s.epochs|]
    && (|s.epochs| == |t.epochs| ==>
        || s.current == t.current
        || s.current.watermark.revision < t.current.watermark.revision)
  }

  lemma NextIsGood<T>(s: System<T>, step: Step<T>)
    requires Good(s)
    ensures Good(Next(s, step)) && NotBefore(s, Next(s, step))
  {
  }

  lemma NotBeforeTransitive<T>(s: System<T>, t: System<T>, u: System<T>)
    requires NotBefore(s, t) && NotBefore(t, u)
    ensures NotBefore(s, u)
  {
    assert t.epochs[..|s.epochs|] == u.epochs[..|t.epochs|][..|s.epochs|];
  }

  lemma {:induction false} RunIsGood<T>(initial: T, epoch: Epoch, steps: seq<Step<T>>, i: nat)
    requires i <= |steps|
    ensures Good(Run(initial, epoch, steps)) && Good(Run(initial, epoch, steps[..i]))
    ensures NotBefore(Run(initial, epoch, steps[..i]), Run(initial, epoch, steps))
  {
    if i < |steps| {
      var earlier := steps[..|steps| - 1];
      assert earlier[..i] == steps[..i];
      RunIsGood(initial, epoch, earlier, i);
      NextIsGood(Run(initial, epoch, earlier), steps[|steps| - 1]);
      NotBeforeTransitive(Run(initial, epoch, steps[..i]), Run(initial, epoch, earlier), Run(initial, epoch, steps));
    } else {
      assert steps[..i] == steps;
      if steps != [] {
        RunIsGood(initial, epoch, steps[..|steps| - 1], 0);
        NextIsGood(Run(initial, epoch, steps[..|steps| - 1]), steps[|steps| - 1]);
      }
    }
  }

  // ---------------------------------------------------------------- what a reader can tell

  /** How a reader recognises that `b` is newer than `a`. */
  predicate Newer(a: Watermark, b: Watermark) {
    || (a.epoch == b.epoch && a.revision < b.revision)
    || b.previousEpoch == Some(a.epoch)
  }

  /** Equal watermarks mean the very same published state, and revisions stay exact in a double. */
  lemma WatermarkIdentifies<T>(initial: T, epoch: Epoch, steps: seq<Step<T>>, i: nat)
    requires i <= |steps|
    ensures var a, b := Run(initial, epoch, steps[..i]).current, Run(initial, epoch, steps).current;
            (a.watermark == b.watermark <==> a == b) && 1 <= b.watermark.revision <= MAX_REVISION
  {
    RunIsGood(initial, epoch, steps, i);
  }

  /** An update to an equal value keeps the watermark, any other one changes it. */
  lemma UnchangedKeepsWatermark<T>(initial: T, epoch: Epoch, steps: seq<Step<T>>, step: Step<T>)
    requires step.epoch !in Run(initial, epoch, steps).epochs
    ensures var s := Run(initial, epoch, steps);
            Next(s, step).current.watermark == s.current.watermark <==> step.next == s.current.value
  {
    RunIsGood(initial, epoch, steps, 0);
  }

  lemma LaterIsNewerIff<T>(s: System<T>, t: System<T>)
    requires Good(s) && Good(t) && NotBefore(s, t)
    ensures Newer(s.current.watermark, t.current.watermark)
       <==> s.current.watermark != t.current.watermark && |t.epochs| <= |s.epochs| + 1
  {
    assert s.epochs[|s.epochs| - 1] == t.epochs[|s.epochs| - 1];
  }

  lemma EarlierNotNewer<T>(s: System<T>, t: System<T>)
    requires Good(s) && Good(t) && NotBefore(s, t)
    ensures !Newer(t.current.watermark, s.current.watermark)
  {
    assert s.epochs[|s.epochs| - 1] == t.epochs[|s.epochs| - 1];
    if |s.epochs| >= 2 {
      assert s.epochs[|s.epochs| - 2] == t.epochs[|s.epochs| - 2];
    }
  }

  /**
   Of two reads, the later one is recognised as newer exactly if the state has changed and at most
   one epoch has ended in between; the earlier one is never taken for newer.
   */
  lemma LaterReadRecognised<T>(initial: T, epoch: Epoch, steps: seq<Step<T>>, i: nat)
    requires i <= |steps|
    ensures var s, t := Run(initial, epoch, steps[..i]), Run(initial, epoch, steps);
            && (Newer(s.current.watermark, t.current.watermark)
                <==> s.current.watermark != t.current.watermark && |t.epochs| <= |s.epochs| + 1)
            && !Newer(t.current.watermark, s.current.watermark)
  {
    RunIsGood(initial, epoch, steps, i);
    var s, t := Run(initial, epoch, steps[..i]), Run(initial, epoch, steps);
    LaterIsNewerIff(s, t);
    EarlierNotNewer(s, t);
  }

  // ---------------------------------------------------------------- reads two epochs apart

  /** `n` more changes within the current epoch, alternating between two values. */
  lemma {:induction false} Climbs<T>(initial: T, epoch: Epoch, steps: seq<Step<T>>, n: nat, x: T, y: T, unused: Epoch)
      returns (longer: seq<Step<T>>)
    requires x != y && unused !in Run(initial, epoch, steps).epochs
    requires Run(initial, epoch, steps).current.watermark.revision + n <= MAX_REVISION
    ensures steps <= longer
    ensures var s, t := Run(initial, epoch, steps), Run(initial, epoch, longer);
            t.epochs == s.epochs && t.current.watermark.revision == s.current.watermark.revision + n
  {
    longer := steps;
    if n > 0 {
      var before := Climbs(initial, epoch, steps, n - 1, x, y, unused);
      var value := Run(initial, epoch, before).current.value;
      longer := before + [Step(if value == x then y else x, unused)];
      assert longer[..|longer| - 1] == before;
    }
  }

  /** The current epoch ends when its revisions are used up. */
  lemma EpochEnds<T>(initial: T, epoch: Epoch, steps: seq<Step<T>>, x: T, y: T, unused: Epoch)
      returns (longer: seq<Step<T>>)
    requires x != y && unused !in Run(initial, epoch, steps).epochs
    ensures steps <= longer
    ensures Run(initial, epoch, longer).epochs == Run(initial, epoch, steps).epochs + [unused]
  {
    RunIsGood(initial, epoch, steps, 0);
    var left := MAX_REVISION - Run(initial, epoch, steps).current.watermark.revision;
    var before := Climbs(initial, epoch, steps, left, x, y, unused);
    RunIsGood(initial, epoch, before, 0);
    var value := Run(initial, epoch, before).current.value;
    longer := before + [Step(if value == x then y else x, unused)];
    assert longer[..|longer| - 1] == before;
  }

  /** However a run has begun, it can go on so that a reader who sees the state now and then does not recognise it. */
  lemma ReadsTwoEpochsApart<T>(initial: T, epoch: Epoch, steps: seq<Step<T>>, x: T, y: T, second: Epoch, third: Epoch)
      returns (longer: seq<Step<T>>)
    requires x != y && second != third
    requires second !in Run(initial, epoch, steps).epochs && third !in Run(initial, epoch, steps).epochs
    ensures steps <= longer
    ensures var a, b := Run(initial, epoch, steps).current, Run(initial, epoch, longer).current;
            a.watermark != b.watermark && !Newer(a.watermark, b.watermark) && !Newer(b.watermark, a.watermark)
  {
    var middle := EpochEnds(initial, epoch, steps, x, y, second);
    longer := EpochEnds(initial, epoch, middle, x, y, third);
    assert longer[..|steps|] == steps;
    RunIsGood(initial, epoch, longer, |steps|);
    LaterReadRecognised(initial, epoch, longer, |steps|);
    var s, t := Run(initial, epoch, steps), Run(initial, epoch, longer);
    assert t.epochs[|t.epochs| - 1] == third && third !in s.epochs;
  }
}
