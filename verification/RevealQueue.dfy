/** The reveal queue of packages/monitor/src/orchestrator.ts as a state machine:
    decryptions finish, shown reveals end, and the store changes for other
    reasons, in any order. */
module RevealQueue {
  import opened Basics

  datatype Queued = Queued(envelopeId: string, plaintext: string)

  /** RevealTarget of packages/monitor/src/types.ts. */
  datatype RevealTarget = RevealTarget(envelopeId: string, plaintext: string, startedAt: int)

  /** `started` and `enqueued` are the history. */
  datatype Reveals = Reveals(
    queue: seq<Queued>,
    inProgress: bool,
    shown: Option<RevealTarget>,
    started: seq<Queued>,
    enqueued: seq<Queued>)

  datatype RevealStep =
    | Decrypted(item: Queued, now: int)
    | Ended(now: int)
    | StoreChanged(now: int)

  function NoReveals(): Reveals {
    Reveals([], false, None, [], [])
  }

  /** popQueue. */
  function Popped(r: Reveals, now: int): Reveals {
    if r.inProgress || r.queue == [] then r
    else r.(queue := r.queue[1..],
            inProgress := true,
            shown := Some(RevealTarget(r.queue[0].envelopeId, r.queue[0].plaintext, now)),
            started := r.started + [r.queue[0]])
  }

  /** onStoreChange. */
  function Notified(r: Reveals, now: int): Reveals {
    if r.shown.None? && r.inProgress then Popped(r.(inProgress := false), now) else r
  }

  function AfterRevealStep(r: Reveals, step: RevealStep): Reveals {
    match step
    case Decrypted(item, now) =>
      if item.plaintext == "" then r
      else Popped(r.(queue := r.queue + [item], enqueued := r.enqueued + [item]), now)
    case Ended(now) => Notified(r.(shown := None), now)
    case StoreChanged(now) => Notified(r, now)
  }

  function AfterReveals(steps: seq<RevealStep>): Reveals {
    if |steps| == 0 then NoReveals() else AfterRevealStep(AfterReveals(steps[..|steps| - 1]), steps[|steps| - 1])
  }

  /** Nothing is queued behind an empty screen, the flag is the screen, and the
      reveals come in the order they were queued. */
  predicate Settled(r: Reveals) {
    && (r.inProgress <==> r.shown.Some?)
    && (r.queue != [] ==> r.shown.Some?)
    && r.started + r.queue == r.enqueued
    && (r.shown.Some? ==>
          && r.started != []
          && r.shown.value.envelopeId == r.started[|r.started| - 1].envelopeId
          && r.shown.value.plaintext == r.started[|r.started| - 1].plaintext)
  }

  lemma PoppedSettles(r: Reveals, now: int)
    requires (r.inProgress <==> r.shown.Some?) && r.started + r.queue == r.enqueued
    requires r.shown.Some? ==> Settled(r)
    ensures Settled(Popped(r, now))
  {
  }

  /** Serialisation is kept by every step. */
  lemma SettledStays(r: Reveals, step: RevealStep)
    requires Settled(r)
    ensures Settled(AfterRevealStep(r, step))
  {
    match step
    case Decrypted(item, now) =>
      var queued := r.(queue := r.queue + [item], enqueued := r.enqueued + [item]);
      assert queued.started + queued.queue == (r.started + r.queue) + [item];
      PoppedSettles(queued, now);
    case Ended(now) =>
      PoppedSettles(r.(shown := None, inProgress := false), now);
    case StoreChanged(now) =>
  }

  /** Serialisation, over every interleaving. */
  lemma {:induction false} RevealsSerialised(steps: seq<RevealStep>)
    ensures Settled(AfterReveals(steps))
  {
    if |steps| > 0 {
      RevealsSerialised(steps[..|steps| - 1]);
      SettledStays(AfterReveals(steps[..|steps| - 1]), steps[|steps| - 1]);
    }
  }

  function DecryptedItem(): RevealStep -> seq<Queued> {
    (step: RevealStep) => if step.Decrypted? && step.item.plaintext != "" then [step.item] else []
  }

  /** The history is what was decrypted, in order, but for empty messages. */
  lemma {:induction false} EverythingIsQueued(steps: seq<RevealStep>)
    ensures AfterReveals(steps).enqueued == FlatMap(steps, DecryptedItem())
  {
    if |steps| > 0 {
      EverythingIsQueued(steps[..|steps| - 1]);
    }
  }

  /** A step shows the next message, or leaves what is shown. */
  lemma ShownStep(r: Reveals, step: RevealStep)
    requires Settled(r)
    ensures var r' := AfterRevealStep(r, step);
            if r'.started == r.started then r'.shown.Some? ==> r'.shown == r.shown
            else |r'.started| == |r.started| + 1 && r'.shown.Some? && r'.shown.value.startedAt == step.now
  {
  }

  predicate Shows(steps: seq<RevealStep>, n: nat) {
    n < |steps| && |AfterReveals(steps[..n + 1]).started| == |AfterReveals(steps[..n]).started| + 1
  }

  /** What is shown has been shown since the step that showed it. */
  lemma {:induction false} ShownSince(steps: seq<RevealStep>) returns (n: nat)
    requires AfterReveals(steps).shown.Some?
    ensures Shows(steps, n) && AfterReveals(steps).shown.value.startedAt == steps[n].now
    ensures AfterReveals(steps[..n + 1]).started == AfterReveals(steps).started
  {
    var front, last := steps[..|steps| - 1], steps[|steps| - 1];
    RevealsSerialised(front);
    ShownStep(AfterReveals(front), last);
    assert steps[..|steps|] == steps;
    if AfterReveals(steps).started == AfterReveals(front).started {
      n := ShownSince(front);
      assert front[..n] == steps[..n] && front[..n + 1] == steps[..n + 1];
    } else {
      n := |front|;
    }
  }

  lemma EndMovesOn(r: Reveals, now: int)
    requires Settled(r) && r.shown.Some?
    ensures var next := AfterRevealStep(r, Ended(now));
            && next.enqueued == r.enqueued
            && (if r.queue == [] then next.shown.None? && next.queue == []
                else next.shown.Some? && next.queue == r.queue[1..])
  {
  }

  function Ends(n: nat, now: int): seq<RevealStep> {
    seq(n, i => Ended(now))
  }

  /** When every shown reveal ends, everything that was queued is shown, once
      each and in order, and the screen is left empty. */
  lemma {:induction false} QueueDrains(steps: seq<RevealStep>, now: int)
    ensures var r := AfterReveals(steps);
            var done := AfterReveals(steps + Ends(if r.shown.None? then 0 else 1 + |r.queue|, now));
            done.started == r.enqueued == done.enqueued && done.shown.None? && done.queue == []
    decreases var r := AfterReveals(steps); if r.shown.None? then 0 else 1 + |r.queue|
  {
    var r := AfterReveals(steps);
    RevealsSerialised(steps);
    if r.shown.None? {
      assert steps + Ends(0, now) == steps;
    } else {
      var next := steps + [Ended(now)];
      assert next[..|next| - 1] == steps;
      EndMovesOn(r, now);
      QueueDrains(next, now);
      assert steps + Ends(1 + |r.queue|, now) == next + Ends(|r.queue|, now);
    }
  }
}
