/** The calls of `Apply` that the workers make (internal/pipeline/workerpool.go): each worker makes
    them in the order of its packets and of the observations in them, one after the other, and the
    counters count what they answer. */
module ApplyOrder {
  import opened AssetModel
  import opened WorkerPool
  import L = Linearization

  /** The observations that a caller resolved, in its order. */
  function Resolved(events: seq<L.Event>, i: nat): seq<Observation> {
    if events == [] then []
    else
      var e := events[|events| - 1];
      Resolved(events[..|events| - 1], i) + if e.Enter? && e.caller == i then [e.obs] else []
  }

  /** How many locked sections a caller has been through. */
  function Sections(events: seq<L.Event>, i: nat): nat {
    if events == [] then 0
    else
      var e := events[|events| - 1];
      Sections(events[..|events| - 1], i) + if e.Locked? && e.caller == i then 1 else 0
  }

  /** All observations of some packets, in order. */
  function AllFound(ps: seq<Packet>): seq<Observation> {
    if ps == [] then [] else AllFound(ps[..|ps| - 1]) + ps[|ps| - 1].found
  }

  /** The observations of which a worker has at least begun the call, and how many of the calls
      have ended. */
  function Begun(v: Worker): seq<Observation> {
    match v.pc
    case Applying(p, next, entered) =>
      var n := if entered then next + 1 else next;
      AllFound(v.done) + if n <= |p.found| then p.found[..n] else p.found
    case _ => AllFound(v.done)
  }

  function Ended(v: Worker): nat { |AllFound(v.done)| + if v.pc.Applying? then v.pc.next else 0 }

  ghost predicate Follows(events: seq<L.Event>, i: nat, v: Worker) {
    && (v.pc.Applying? ==> v.pc.next <= |v.pc.packet.found| && (v.pc.entered ==> v.pc.next < |v.pc.packet.found|))
    && Resolved(events, i) == Begun(v) && Sections(events, i) == Ended(v)
  }

  ghost predicate AllFollow(w: World) { forall i | 0 <= i < |w.workers| :: Follows(w.events, i, w.workers[i]) }

  lemma OneMoreEvent(events: seq<L.Event>, e: L.Event, i: nat)
    ensures Resolved(events + [e], i) == Resolved(events, i) + if e.Enter? && e.caller == i then [e.obs] else []
    ensures Sections(events + [e], i) == Sections(events, i) + if e.Locked? && e.caller == i then 1 else 0
  {
    assert (events + [e])[..|events|] == events;
  }

  lemma AllFoundMore(ps: seq<Packet>, p: Packet)
    ensures AllFound(ps + [p]) == AllFound(ps) + p.found
  {
    assert (ps + [p])[..|ps|] == ps;
  }

  /** What a step does to the worker that makes it. */
  lemma FollowsStep(capacity: nat, w: World, s: Step)
    requires OfWorker(s) && Enabled(capacity, w, s) && Follows(w.events, s.worker, w.workers[s.worker])
    ensures var z := Do(capacity, w, s); Follows(z.events, s.worker, z.workers[s.worker])
  {
    hide Resolved, Sections, AllFound, Held, Observable;
    var i := s.worker;
    var v, after := w.workers[i], Do(capacity, w, s);
    match s
    case Resolve(_) =>
      var found, next := v.pc.packet.found, v.pc.next;
      OneMoreEvent(w.events, L.Enter(i, found[next]), i);
      OneMoreFound(AllFound(v.done), found, next);
    case Offer(_, _, row) => OneMoreEvent(w.events, L.Locked(i, row), i);
    case Finish(_) =>
      AllFoundMore(v.done, v.pc.packet);
      assert v.pc.packet.found[..|v.pc.packet.found|] == v.pc.packet.found;
    case Count(_) => assert AllFound(v.done) + v.pc.packet.found[..0] == AllFound(v.done);
    case _ =>
  }

  lemma OneMoreFound(before: seq<Observation>, found: seq<Observation>, n: nat)
    requires n < |found|
    ensures before + found[..n + 1] == before + found[..n] + [found[n]]
  {
  }

  /** And to the others. */
  lemma OthersFollow(capacity: nat, w: World, s: Step, j: nat)
    requires Enabled(capacity, w, s) && j < |w.workers| && Follows(w.events, j, w.workers[j]) && (OfWorker(s) ==> s.worker != j)
    ensures var z := Do(capacity, w, s); |z.workers| == |w.workers| && Follows(z.events, j, z.workers[j])
  {
    hide Resolved, Sections, Begun, Ended;
    match s
    case Resolve(i) => OneMoreEvent(w.events, L.Enter(i, NextOf(w, i)), j);
    case Offer(i, _, row) => OneMoreEvent(w.events, L.Locked(i, row), j);
    case Elsewhere(op) => OneMoreEvent(w.events, L.Other(op), j);
    case _ =>
  }

  /** At any time, whatever the interleaving: a worker has begun a call for each observation of the
      packets that it has finished and for the first ones of that in its hands, in that order, and
      has ended all of them but the one that it is in. */
  lemma {:induction false} AppliesInOrder(capacity: nat, workers: nat, steps: seq<Step>)
    requires Run(capacity, workers, steps).Some?
    ensures AllFollow(Run(capacity, workers, steps).value)
  {
    hide Follows, Do, Enabled;
    if steps == [] {
      StartFollows(workers);
    } else {
      var front, s := steps[..|steps| - 1], steps[|steps| - 1];
      AppliesInOrder(capacity, workers, front);
      var w := Run(capacity, workers, front).value;
      StepFollows(capacity, w, s);
    }
  }

  lemma StepFollows(capacity: nat, w: World, s: Step)
    requires AllFollow(w) && Enabled(capacity, w, s)
    ensures AllFollow(Do(capacity, w, s))
  {
    var z := Do(capacity, w, s);
    assert |z.workers| == |w.workers| && (OfWorker(s) ==> s.worker < |w.workers|);
    hide Follows, Do, Enabled;
    forall j | 0 <= j < |z.workers| ensures Follows(z.events, j, z.workers[j]) {
      if OfWorker(s) && s.worker == j {
        FollowsStep(capacity, w, s);
      } else {
        OthersFollow(capacity, w, s, j);
      }
    }
  }

  lemma StartFollows(workers: nat)
    ensures AllFollow(Start(workers))
  {
  }

  // ---------- counters ----------

  /** How many calls of a run answered well, or not. */
  function Answers(steps: seq<Step>, ok: bool): nat {
    if steps == [] then 0
    else
      var s := steps[|steps| - 1];
      Answers(steps[..|steps| - 1], ok) + if s.Offer? && s.ok == ok then 1 else 0
  }

  function Taken(steps: seq<Step>): nat {
    if steps == [] then 0 else Taken(steps[..|steps| - 1]) + if steps[|steps| - 1].Count? then 1 else 0
  }

  lemma CountersStep(capacity: nat, w: World, s: Step)
    requires Enabled(capacity, w, s)
    ensures var z := Do(capacity, w, s);
      && z.applied == w.applied + (if s.Offer? && s.ok then 1 else 0)
      && z.dropped == w.dropped + (if s.Offer? && !s.ok then 1 else 0)
      && z.processed == w.processed + if s.Count? then 1 else 0
  {
    hide Enabled, NextOf, Held, Observable;
    match s
    case Offer(_, _, _) =>
    case Count(_) =>
    case _ =>
  }

  /** The counters are the calls that answered well, those that did not, and the packets counted. */
  lemma {:induction false} CountersCount(capacity: nat, workers: nat, steps: seq<Step>)
    requires Run(capacity, workers, steps).Some?
    ensures var w := Run(capacity, workers, steps).value;
      w.applied == Answers(steps, true) && w.dropped == Answers(steps, false) && w.processed == Taken(steps)
  {
    hide Enabled, Do;
    if steps != [] {
      var front := steps[..|steps| - 1];
      CountersCount(capacity, workers, front);
      CountersStep(capacity, Run(capacity, workers, front).value, steps[|steps| - 1]);
    }
  }
}
