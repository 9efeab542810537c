/** Receivers and a sender meeting at one barrier (research/cross_measure.py): every interleaving of
    their steps, with failures, timeouts and aborts at any point. */
module Rendezvous {

  /** Starting until the opening counter sample; Waiting inside the barrier; Released while
      listening or injecting; Raised, Recorded and Failed along the guard's except clause. */
  datatype Phase = Starting | Sampled | Waiting | Released | Done | Raised | Recorded | Failed

  /** threading.Barrier: filling, draining after the last arrival, or broken for good. */
  datatype Barrier = Filling | Draining | Broken

  /** Worker n-1 is the sender, if there is one. `count` is the barrier's own count of waiters;
      `sampled` and `arrived` remember who ever took its sample and entered the barrier. */
  datatype State = State(phase: seq<Phase>, barrier: Barrier, count: nat, failures: nat,
                         hasSender: bool, framesLeft: nat, sampled: set<nat>, arrived: set<nat>)

  datatype Step =
    | TakeSample(w: nat)
    | Arrive(w: nat)
    | Wake(w: nat)
    | TimeOut(w: nat)
    | Inject(w: nat)
    | Complete(w: nat)
    | Raise(w: nat)
    | Record(w: nat)
    | Abort(w: nat)

  predicate IsSender(s: State, w: nat) {
    s.hasSender && w == |s.phase| - 1
  }

  function Start(n: nat, hasSender: bool, frames: nat): State {
    State(seq(n, _ => Starting), Filling, 0, 0, hasSender, frames, {}, {})
  }

  function Move(s: State, w: nat, p: Phase): State
    requires w < |s.phase|
  {
    s.(phase := s.phase[w := p])
  }

  /** A waiter leaves the barrier; the last one to leave a draining barrier resets it. */
  function Leave(s: State, w: nat, p: Phase, b: Barrier): State
    requires w < |s.phase| && s.count > 0
  {
    Move(s, w, p).(count := s.count - 1, barrier := if b.Draining? && s.count == 1 then Filling else b)
  }

  /** Barrier.wait up to the point where it blocks. */
  function Enter(s: State, w: nat): State
    requires w < |s.phase| && !s.barrier.Draining?
  {
    if s.barrier.Broken? then Move(s, w, Raised)
    else if s.count + 1 == |s.phase| then
      Move(s, w, Released).(arrived := s.arrived + {w}, barrier := if s.count == 0 then Filling else Draining)
    else Move(s, w, Waiting).(arrived := s.arrived + {w}, count := s.count + 1)
  }

  predicate Enabled(s: State, e: Step) {
    && e.w < |s.phase|
    && var p := s.phase[e.w];
       match e
       case TakeSample(_) => p.Starting?
       case Arrive(_) => p.Sampled? && !s.barrier.Draining?
       case Wake(_) => p.Waiting? && !s.barrier.Filling? && s.count > 0
       case TimeOut(_) => p.Waiting? && s.barrier.Filling? && s.count > 0
       case Inject(w) => p.Released? && IsSender(s, w) && s.framesLeft > 0
       case Complete(w) => p.Released? && (IsSender(s, w) ==> s.framesLeft == 0)
       case Raise(_) => p.Starting? || p.Sampled? || p.Released?
       case Record(_) => p.Raised?
       case Abort(_) => p.Recorded?
  }

  function Next(s: State, e: Step): State
    requires Enabled(s, e)
  {
    match e
    case TakeSample(w) => Move(s, w, Sampled).(sampled := s.sampled + {w})
    case Arrive(w) => Enter(s, w)
    case Wake(w) => if s.barrier.Broken? then Leave(s, w, Raised, Broken) else Leave(s, w, Released, Draining)
    case TimeOut(w) => Leave(s, w, Raised, Broken)
    case Inject(_) => s.(framesLeft := s.framesLeft - 1)
    case Complete(w) => Move(s, w, Done)
    case Raise(w) => Move(s, w, Raised)
    case Record(w) => Move(s, w, Recorded).(failures := s.failures + 1)
    case Abort(w) => Move(s, w, Failed).(barrier := Broken)
  }

  /** A schedule: steps each enabled in its turn. */
  predicate Runs(s: State, steps: seq<Step>)
    decreases |steps|
  {
    steps == [] || (Enabled(s, steps[0]) && Runs(Next(s, steps[0]), steps[1..]))
  }

  function After(s: State, steps: seq<Step>): State
    requires Runs(s, steps)
    decreases |steps|
  {
    if steps == [] then s else After(Next(s, steps[0]), steps[1..])
  }

  // ---------------------------------------------------------------- counting waiters

  function Waiters(p: seq<Phase>): nat {
    if p == [] then 0 else Waiters(p[..|p| - 1]) + (if p[|p| - 1].Waiting? then 1 else 0)
  }

  lemma {:induction false} WaitersUpdate(p: seq<Phase>, w: nat, x: Phase)
    requires w < |p|
    ensures Waiters(p[w := x]) == Waiters(p) - (if p[w].Waiting? then 1 else 0) + (if x.Waiting? then 1 else 0)
  {
    var n := |p| - 1;
    if w < n {
      WaitersUpdate(p[..n], w, x);
      assert p[w := x][..n] == p[..n][w := x];
    } else {
      assert p[w := x][..n] == p[..n];
    }
  }

  lemma {:induction false} WaitersBound(p: seq<Phase>)
    ensures Waiters(p) <= |p|
    ensures Waiters(p) == |p| <==> forall w :: 0 <= w < |p| ==> p[w].Waiting?
    ensures Waiters(p) == 0 <==> forall w :: 0 <= w < |p| ==> !p[w].Waiting?
  {
    if p != [] {
      WaitersBound(p[..|p| - 1]);
      assert forall w :: 0 <= w < |p| - 1 ==> p[w] == p[..|p| - 1][w];
    }
  }

  /** If all but one wait, and w does not, everyone else waits. */
  lemma {:induction false} AllOthersWait(p: seq<Phase>, w: nat)
    requires w < |p| && !p[w].Waiting? && Waiters(p) + 1 == |p|
    ensures forall v :: 0 <= v < |p| && v != w ==> p[v].Waiting?
  {
    WaitersUpdate(p, w, Waiting);
    WaitersBound(p[w := Waiting]);
    forall v | 0 <= v < |p| && v != w
      ensures p[v].Waiting?
    {
      assert p[w := Waiting][v].Waiting?;
    }
  }

  // ---------------------------------------------------------------- the invariant

  predicate All(s: State, who: set<nat>) {
    forall w :: 0 <= w < |s.phase| ==> w in who
  }

  predicate WorkerOk(s: State, w: nat)
    requires w < |s.phase|
  {
    var p := s.phase[w];
    && (w in s.arrived ==> w in s.sampled)
    && (p.Starting? ==> w !in s.arrived)
    && (p.Sampled? ==> w in s.sampled && w !in s.arrived)
    && (p.Waiting? ==> w in s.arrived)
    && (p.Released? || p.Done? ==> All(s, s.arrived))
    && (p.Recorded? || p.Failed? ==> s.failures > 0)
    && (p.Failed? ==> s.barrier.Broken?)
    && (s.barrier.Filling? && w in s.arrived ==> p.Waiting? || All(s, s.arrived))
  }

  predicate Inv(s: State) {
    && s.count == Waiters(s.phase)
    && (forall w :: 0 <= w < |s.phase| ==> WorkerOk(s, w))
    && (s.barrier.Draining? ==> All(s, s.arrived) && s.count > 0)
    && (s.barrier.Filling? && All(s, s.arrived) ==> s.count == 0)
  }

  lemma {:induction false} StartInv(n: nat, hasSender: bool, frames: nat)
    requires n > 0
    ensures Inv(Start(n, hasSender, frames))
  {
    var s := Start(n, hasSender, frames);
    WaitersBound(s.phase);
    assert 0 !in s.arrived && s.phase[0].Starting?;
  }

  /** The last to arrive finds everyone else waiting, so all have arrived. */
  lemma {:induction false} LastArrival(s: State, w: nat)
    requires Inv(s) && w < |s.phase| && s.phase[w].Sampled? && s.count + 1 == |s.phase|
    ensures All(s, s.arrived + {w})
  {
    AllOthersWait(s.phase, w);
    forall v | 0 <= v < |s.phase|
      ensures v in s.arrived + {w}
    {
      assert WorkerOk(s, v);
    }
  }

  /** An arrival that is not the last leaves someone who has not arrived. */
  lemma {:induction false} NotLast(s: State, w: nat)
    requires Inv(s) && w < |s.phase| && s.phase[w].Sampled? && s.barrier.Filling? && s.count + 1 != |s.phase|
    ensures !All(s, s.arrived + {w})
  {
    WaitersUpdate(s.phase, w, Waiting);
    WaitersBound(s.phase[w := Waiting]);
    var v :| 0 <= v < |s.phase| && !s.phase[w := Waiting][v].Waiting?;
    assert WorkerOk(s, v) && WorkerOk(s, w);
    assert w !in s.arrived && v != w;
  }

  lemma {:induction false} ArriveInv(s: State, w: nat)
    requires Inv(s) && Enabled(s, Arrive(w))
    ensures Inv(Enter(s, w))
  {
    var t := Enter(s, w);
    WaitersUpdate(s.phase, w, Waiting);
    WaitersUpdate(s.phase, w, Released);
    WaitersUpdate(s.phase, w, Raised);
    assert WorkerOk(s, w);
    if !s.barrier.Broken? {
      if s.count + 1 == |s.phase| {
        LastArrival(s, w);
      } else {
        NotLast(s, w);
      }
    }
    forall v | 0 <= v < |t.phase|
      ensures WorkerOk(t, v)
    {
      assert WorkerOk(s, v);
    }
  }

  lemma {:induction false} LeaveInv(s: State, w: nat, p: Phase, b: Barrier)
    requires Inv(s) && w < |s.phase| && s.phase[w].Waiting? && s.count > 0
    requires if p.Released? then b.Draining? && s.barrier.Draining? else p.Raised? && b.Broken?
    ensures Inv(Leave(s, w, p, b))
  {
    var t := Leave(s, w, p, b);
    WaitersUpdate(s.phase, w, p);
    assert WorkerOk(s, w);
    forall v | 0 <= v < |t.phase|
      ensures WorkerOk(t, v)
    {
      assert WorkerOk(s, v);
    }
  }

  /** Steps outside the barrier. */
  lemma {:induction false} OutsideInv(s: State, e: Step)
    requires Inv(s) && Enabled(s, e) && !e.Arrive? && !e.Wake? && !e.TimeOut?
    ensures Inv(Next(s, e))
  {
    var t := Next(s, e);
    WaitersUpdate(s.phase, e.w, t.phase[e.w]);
    assert WorkerOk(s, e.w);
    assert s.phase[e.w := s.phase[e.w]] == s.phase;
    forall v | 0 <= v < |t.phase|
      ensures WorkerOk(t, v)
    {
      assert WorkerOk(s, v);
    }
  }

  lemma {:induction false} NextInv(s: State, e: Step)
    requires Inv(s) && Enabled(s, e)
    ensures Inv(Next(s, e))
  {
    match e
    case Arrive(w) => ArriveInv(s, w);
    case Wake(w) =>
      if s.barrier.Broken? {
        LeaveInv(s, w, Raised, Broken);
      } else {
        LeaveInv(s, w, Released, Draining);
      }
    case TimeOut(w) => LeaveInv(s, w, Raised, Broken);
    case _ => OutsideInv(s, e);
  }

  lemma {:induction false} RunInv(s: State, steps: seq<Step>)
    requires Inv(s) && Runs(s, steps)
    ensures Inv(After(s, steps)) && |After(s, steps).phase| == |s.phase| && After(s, steps).hasSender == s.hasSender
    decreases |steps|
  {
    if steps != [] {
      NextInv(s, steps[0]);
      RunInv(Next(s, steps[0]), steps[1..]);
    }
  }

  // ---------------------------------------------------------------- safety

  /** In every schedule, whenever a frame can be injected every worker has taken its opening sample. */
  lemma {:induction false} NoEarlyInjection(n: nat, hasSender: bool, frames: nat, steps: seq<Step>, w: nat)
    requires n > 0 && Runs(Start(n, hasSender, frames), steps)
    requires Enabled(After(Start(n, hasSender, frames), steps), Inject(w))
    ensures forall v :: 0 <= v < n ==> v in After(Start(n, hasSender, frames), steps).sampled
  {
    StartInv(n, hasSender, frames);
    RunInv(Start(n, hasSender, frames), steps);
    var s := After(Start(n, hasSender, frames), steps);
    assert WorkerOk(s, w);
    forall v | 0 <= v < n
      ensures v in s.sampled
    {
      assert WorkerOk(s, v);
    }
  }

  predicate Finished(p: Phase) {
    p.Done? || p.Failed?
  }

  /** Every join has returned. */
  predicate Joined(s: State) {
    forall w :: 0 <= w < |s.phase| ==> Finished(s.phase[w])
  }

  /** main's exit decision after the joins: a failure gives 2 before agreement is looked at. */
  function ExitCode(s: State, disagree: bool): nat {
    if s.failures > 0 then 2 else if disagree then 1 else 0
  }

  /** An exit code other than 2 means that every worker completed its dwell. */
  lemma {:induction false} ExitMeansComplete(n: nat, hasSender: bool, frames: nat, steps: seq<Step>, disagree: bool)
    requires n > 0 && Runs(Start(n, hasSender, frames), steps) && Joined(After(Start(n, hasSender, frames), steps))
    ensures var s := After(Start(n, hasSender, frames), steps);
            |s.phase| == n &&
            (ExitCode(s, disagree) != 2 ==> forall w :: 0 <= w < n ==> s.phase[w].Done? && w in s.sampled)
  {
    StartInv(n, hasSender, frames);
    RunInv(Start(n, hasSender, frames), steps);
    var s := After(Start(n, hasSender, frames), steps);
    if s.failures == 0 {
      forall w | 0 <= w < n
        ensures s.phase[w].Done? && w in s.sampled
      {
        assert Finished(s.phase[w]) && WorkerOk(s, w);
      }
    }
  }

  // ---------------------------------------------------------------- progress

  function Weight(p: Phase): nat {
    match p
    case Starting => 7
    case Sampled => 6
    case Waiting => 5
    case Released => 4
    case Raised => 2
    case Recorded => 1
    case _ => 0
  }

  function Weights(p: seq<Phase>): nat {
    if p == [] then 0 else Weights(p[..|p| - 1]) + Weight(p[|p| - 1])
  }

  function Rank(s: State): nat {
    Weights(s.phase) + s.framesLeft
  }

  lemma {:induction false} WeightsUpdate(p: seq<Phase>, w: nat, x: Phase)
    requires w < |p|
    ensures Weights(p[w := x]) + Weight(p[w]) == Weights(p) + Weight(x)
  {
    var n := |p| - 1;
    if w < n {
      WeightsUpdate(p[..n], w, x);
      assert p[w := x][..n] == p[..n][w := x];
    } else {
      assert p[w := x][..n] == p[..n];
    }
  }

  lemma {:induction false} RankFalls(s: State, e: Step)
    requires Enabled(s, e)
    ensures Rank(Next(s, e)) < Rank(s)
  {
    WeightsUpdate(s.phase, e.w, Next(s, e).phase[e.w]);
    assert s.phase[e.w := s.phase[e.w]] == s.phase;
  }

  /** No schedule is longer than the rank, so no one waits, sends or fails for ever. */
  lemma {:induction false} SchedulesEnd(s: State, steps: seq<Step>)
    requires Runs(s, steps)
    ensures |steps| <= Rank(s)
    decreases |steps|
  {
    if steps != [] {
      RankFalls(s, steps[0]);
      SchedulesEnd(Next(s, steps[0]), steps[1..]);
    }
  }

  /** While someone has not finished, some worker can move without waiting for a timeout: a failure
      before, in or after the barrier strands no one. */
  lemma {:induction false} SomeoneCanMove(s: State) returns (e: Step)
    requires Inv(s) && !Joined(s)
    ensures Enabled(s, e) && !e.TimeOut?
  {
    var w :| 0 <= w < |s.phase| && !Finished(s.phase[w]);
    assert WorkerOk(s, w);
    WaitersBound(s.phase);
    e := MoveOf(s, w);
    if !Enabled(s, e) {
      assert s.phase[w].Waiting? && s.barrier.Filling?;
      var v := NotArrived(s);
      e := MoveOf(s, v);
    }
  }

  /** A worker's next step, when it is not waiting for others. */
  function MoveOf(s: State, w: nat): Step
    requires w < |s.phase|
  {
    match s.phase[w]
    case Starting => TakeSample(w)
    case Sampled => Arrive(w)
    case Waiting => Wake(w)
    case Released => if IsSender(s, w) && s.framesLeft > 0 then Inject(w) else Complete(w)
    case Raised => Record(w)
    case _ => Abort(w)
  }

  /** While a filling barrier has waiters, someone has not arrived and is still on its way. */
  lemma {:induction false} NotArrived(s: State) returns (v: nat)
    requires Inv(s) && s.barrier.Filling? && s.count > 0
    ensures v < |s.phase| && Enabled(s, MoveOf(s, v)) && !MoveOf(s, v).TimeOut?
  {
    v :| 0 <= v < |s.phase| && v !in s.arrived;
    assert WorkerOk(s, v);
  }

  /** Every schedule can be continued until all joins return, without any timeout. */
  lemma {:induction false} AllJoinsReturn(s: State) returns (steps: seq<Step>)
    requires Inv(s)
    ensures Runs(s, steps) && Joined(After(s, steps)) && forall i :: 0 <= i < |steps| ==> !steps[i].TimeOut?
    decreases Rank(s)
  {
    steps := [];
    if !Joined(s) {
      var e := SomeoneCanMove(s);
      NextInv(s, e);
      RankFalls(s, e);
      var rest := AllJoinsReturn(Next(s, e));
      steps := [e] + rest;
      assert steps[1..] == rest;
    }
  }

  /** A failure anywhere breaks the barrier by the time its worker has finished, and a broken barrier
      releases its waiters one by one. */
  lemma {:induction false} FailureReleases(s: State, f: nat, w: nat)
    requires Inv(s) && f < |s.phase| && s.phase[f].Failed? && w < |s.phase| && s.phase[w].Waiting?
    ensures Enabled(s, Wake(w)) && Next(s, Wake(w)).phase[w] == Raised
  {
    assert WorkerOk(s, f);
    WaitersBound(s.phase);
  }
}
