/** A-MPDU grouping (rxd.py): a streaming tracker against the one segmentation of the stream into
    maximal runs of contiguous subframes. */
module Aggregation {
  import opened Wire

  const SLACK_US := 24.0

  /** What a received frame contributes. A rate of zero stands for an unknown one. */
  datatype Frame = Frame(length: nat, ampdu: bool, timestamp: Option<int>, transmitter: Option<Bytes>,
                         mode: nat, rateMbps: real)

  /** `afterFlush` marks that the tracker was flushed since the previous frame. */
  datatype Fed = Fed(frame: Frame, afterFlush: bool)

  datatype Aggregate = Aggregate(timestamp: Option<int>, mode: nat, rateMbps: real, isAmpdu: bool, frames: seq<nat>)

  // ---------------------------------------------------------------- octets on air

  /** Delimiter, payload, padding to a multiple of four. */
  function MpduBytesOnAir(length: nat): nat {
    4 + length + (-(4 + length)) % 4
  }

  function OnAir(frames: seq<nat>): nat {
    if frames == [] then 0 else OnAir(frames[..|frames| - 1]) + MpduBytesOnAir(frames[|frames| - 1])
  }

  function Payload(frames: seq<nat>): nat {
    if frames == [] then 0 else Payload(frames[..|frames| - 1]) + frames[|frames| - 1]
  }

  lemma {:induction false} OnAirBounds(frames: seq<nat>)
    ensures OnAir(frames) % 4 == 0
    ensures Payload(frames) + 4 * |frames| <= OnAir(frames) <= Payload(frames) + 7 * |frames|
  {
    if frames != [] {
      OnAirBounds(frames[..|frames| - 1]);
    }
  }

  function OwnAirtime(f: Frame): real {
    if f.rateMbps == 0.0 then 0.0 else (MpduBytesOnAir(f.length) * 8) as real / f.rateMbps
  }

  /** At its rate, in bits per microsecond, a subframe takes as long as its octets on air; an unknown
      rate takes none. */
  lemma {:induction false} AirtimeMeaning(f: Frame)
    ensures f.rateMbps == 0.0 ==> OwnAirtime(f) == 0.0
    ensures f.rateMbps != 0.0 ==> OwnAirtime(f) * f.rateMbps == (8 * OnAir([f.length])) as real
  {
    assert [f.length][..0] == [];
    if f.rateMbps != 0.0 {
      QuotientTimes((8 * MpduBytesOnAir(f.length)) as real, f.rateMbps);
    }
  }

  lemma {:induction false} QuotientTimes(a: real, b: real)
    requires b != 0.0
    ensures a / b * b == a
  {
  }

  // ---------------------------------------------------------------- the segmentation

  predicate Groupable(f: Frame) {
    f.ampdu && f.timestamp.Some?
  }

  /** `next` continues the aggregate whose latest subframe is `prev`. */
  predicate Joins(prev: Frame, next: Fed, slack: real) {
    && !next.afterFlush && Groupable(prev) && Groupable(next.frame)
    && next.frame.transmitter.Some? && next.frame.transmitter == prev.transmitter
    && 0 <= next.frame.timestamp.value - prev.timestamp.value
    && (next.frame.timestamp.value - prev.timestamp.value) as real <= OwnAirtime(prev) + slack
  }

  type Run = seq<Fed>

  function Flatten(runs: seq<Run>): seq<Fed> {
    if runs == [] then [] else Flatten(runs[..|runs| - 1]) + runs[|runs| - 1]
  }

  ghost predicate Contiguous(run: Run, slack: real) {
    run != [] && forall i :: 0 <= i < |run| - 1 ==> Joins(run[i].frame, run[i + 1], slack)
  }

  /** Runs that join inside, and not across. */
  ghost predicate Maximal(runs: seq<Run>, slack: real) {
    && (forall k :: 0 <= k < |runs| ==> Contiguous(runs[k], slack))
    && (forall k :: 0 <= k < |runs| - 1 ==> !Joins(runs[k][|runs[k]| - 1].frame, runs[k + 1][0], slack))
  }

  function Add(runs: seq<Run>, next: Fed, joins: bool): seq<Run>
    requires joins ==> runs != []
  {
    if joins then runs[..|runs| - 1] + [runs[|runs| - 1] + [next]] else runs + [[next]]
  }

  function Runs(fed: seq<Fed>, slack: real): (runs: seq<Run>)
    ensures runs == [] <==> fed == []
  {
    if fed == [] then []
    else
      var n := |fed| - 1;
      Add(Runs(fed[..n], slack), fed[n], n > 0 && Joins(fed[n - 1].frame, fed[n], slack))
  }

  lemma {:induction false} FlattenAdd(runs: seq<Run>, next: Fed, joins: bool)
    requires joins ==> runs != []
    ensures Flatten(Add(runs, next, joins)) == Flatten(runs) + [next]
  {
    var more := Add(runs, next, joins);
    if joins {
      assert more[..|more| - 1] == runs[..|runs| - 1];
      Assoc(Flatten(runs[..|runs| - 1]), runs[|runs| - 1], [next]);
    } else {
      assert more[..|more| - 1] == runs;
    }
  }

  lemma {:induction false} LastOfFlatten(runs: seq<Run>, slack: real)
    requires Maximal(runs, slack) && runs != []
    ensures Flatten(runs) != []
    ensures Flatten(runs)[|Flatten(runs)| - 1] == runs[|runs| - 1][|runs[|runs| - 1]| - 1]
  {
    assert Contiguous(runs[|runs| - 1], slack);
  }

  lemma {:induction false} ContiguousAdd(run: Run, next: Fed, slack: real)
    requires Contiguous(run, slack) && Joins(run[|run| - 1].frame, next, slack)
    ensures Contiguous(run + [next], slack)
  {
    var longer := run + [next];
    forall i | 0 <= i < |longer| - 1
      ensures Joins(longer[i].frame, longer[i + 1], slack)
    {
      if i < |run| - 1 {
        assert longer[i] == run[i] && longer[i + 1] == run[i + 1];
      }
    }
  }

  lemma {:induction false} MaximalAdd(runs: seq<Run>, next: Fed, joins: bool, slack: real)
    requires Maximal(runs, slack) && (runs == [] ==> !joins)
    requires runs != [] ==> joins == Joins(runs[|runs| - 1][|runs[|runs| - 1]| - 1].frame, next, slack)
    ensures Maximal(Add(runs, next, joins), slack)
  {
    var more := Add(runs, next, joins);
    if joins {
      ContiguousAdd(runs[|runs| - 1], next, slack);
    }
    forall k | 0 <= k < |more|
      ensures Contiguous(more[k], slack)
    {
      assert k < |runs| ==> Contiguous(runs[k], slack);
    }
    forall k | 0 <= k < |more| - 1
      ensures !Joins(more[k][|more[k]| - 1].frame, more[k + 1][0], slack)
    {
      assert k + 1 < |runs| ==>
          Contiguous(runs[k + 1], slack) && more[k] == runs[k] && more[k + 1][0] == runs[k + 1][0];
    }
  }

  lemma {:induction false} RunsStep(runs: seq<Run>, past: seq<Fed>, next: Fed, joins: bool, slack: real)
    requires Maximal(runs, slack) && Flatten(runs) == past && (runs == [] <==> past == [])
    requires joins == (past != [] && Joins(past[|past| - 1].frame, next, slack))
    ensures Flatten(Add(runs, next, joins)) == past + [next] && Maximal(Add(runs, next, joins), slack)
  {
    if runs != [] {
      LastOfFlatten(runs, slack);
    }
    MaximalAdd(runs, next, joins, slack);
    FlattenAdd(runs, next, joins);
  }

  lemma {:induction false} LastFed(fed: seq<Fed>, n: nat)
    requires |fed| == n + 1
    ensures fed == fed[..n] + [fed[n]] && (n > 0 ==> fed[..n][n - 1] == fed[n - 1])
  {
  }

  /** The runs are the stream cut into maximal contiguous pieces. */
  lemma {:induction false} RunsAreMaximal(fed: seq<Fed>, slack: real)
    ensures Flatten(Runs(fed, slack)) == fed && Maximal(Runs(fed, slack), slack)
  {
    if fed != [] {
      var n := |fed| - 1;
      var past, joins := fed[..n], n > 0 && Joins(fed[n - 1].frame, fed[n], slack);
      RunsAreMaximal(past, slack);
      LastFed(fed, n);
      RunsStep(Runs(past, slack), past, fed[n], joins, slack);
    }
  }

  lemma {:induction false} MaximalInit(runs: seq<Run>, slack: real)
    requires Maximal(runs, slack) && runs != []
    ensures Maximal(runs[..|runs| - 1], slack)
    ensures |runs[|runs| - 1]| > 1 ==>
              Maximal(runs[..|runs| - 1] + [runs[|runs| - 1][..|runs[|runs| - 1]| - 1]], slack)
  {
    var last := runs[|runs| - 1];
    assert Contiguous(last, slack);
    if |last| > 1 {
      var shorter: seq<Run> := runs[..|runs| - 1] + [last[..|last| - 1]];
      assert Contiguous(last[..|last| - 1], slack);
      forall k | 0 <= k < |shorter| - 1
        ensures !Joins(shorter[k][|shorter[k]| - 1].frame, shorter[k + 1][0], slack)
      {
        assert shorter[k] == runs[k] && shorter[k + 1][0] == runs[k + 1][0];
      }
    }
  }

  /** The runs before the last frame of the stream. */
  function Before(runs: seq<Run>): seq<Run>
    requires runs != [] && runs[|runs| - 1] != []
  {
    var init, last := runs[..|runs| - 1], runs[|runs| - 1];
    if |last| > 1 then init + [last[..|last| - 1]] else init
  }

  lemma {:induction false} BeforeAdd(runs: seq<Run>, slack: real)
    requires Maximal(runs, slack) && runs != []
    ensures var last := runs[|runs| - 1];
            && last != [] && Maximal(Before(runs), slack) && (|last| > 1 ==> Before(runs) != [])
            && runs == Add(Before(runs), last[|last| - 1], |last| > 1)
  {
    var last := runs[|runs| - 1];
    assert Contiguous(last, slack);
    MaximalInit(runs, slack);
    assert runs == runs[..|runs| - 1] + [last];
    if |last| > 1 {
      assert Before(runs)[..|Before(runs)| - 1] == runs[..|runs| - 1];
      assert last == last[..|last| - 1] + [last[|last| - 1]];
    } else {
      assert last == [last[0]];
    }
  }

  lemma {:induction false} BoundaryJoins(runs: seq<Run>, slack: real)
    requires Maximal(runs, slack) && runs != []
    requires runs[|runs| - 1] != [] && Before(runs) != []
    ensures var last, before := runs[|runs| - 1], Before(runs)[|Before(runs)| - 1];
            before != [] &&
            (|last| > 1 <==> Joins(before[|before| - 1].frame, last[|last| - 1], slack))
  {
    var last, k := runs[|runs| - 1], |runs| - 2;
    assert Contiguous(last, slack);
    if |last| > 1 {
      LastJoins(last, slack);
    } else {
      assert Contiguous(runs[k], slack);
      assert !Joins(runs[k][|runs[k]| - 1].frame, runs[k + 1][0], slack);
    }
  }

  lemma {:induction false} RunsOfNext(fed: seq<Fed>, next: Fed, before: seq<Run>, joins: bool, slack: real)
    requires before == Runs(fed, slack) && joins == (fed != [] && Joins(fed[|fed| - 1].frame, next, slack))
    ensures Runs(fed + [next], slack) == Add(before, next, joins)
  {
    assert (fed + [next])[..|fed|] == fed;
  }

  /** No other list of maximal runs makes up the same stream. */
  lemma {:induction false} RunsAreUnique(runs: seq<Run>, slack: real)
    requires Maximal(runs, slack)
    ensures runs == Runs(Flatten(runs), slack)
    decreases |Flatten(runs)|
  {
    if runs != [] {
      BeforeAdd(runs, slack);
      var before, last := Before(runs), runs[|runs| - 1];
      var next := last[|last| - 1];
      FlattenAdd(before, next, |last| > 1);
      RunsAreUnique(before, slack);
      if before != [] {
        BoundaryJoins(runs, slack);
        LastOfFlatten(before, slack);
      }
      RunsOfNext(Flatten(before), next, before, |last| > 1, slack);
    }
  }

  lemma {:induction false} LastJoins(run: Run, slack: real)
    requires Contiguous(run, slack) && |run| > 1
    ensures Joins(run[|run| - 2].frame, run[|run| - 1], slack)
  {
    var i := |run| - 2;
    assert Joins(run[i].frame, run[i + 1], slack);
  }

  // ---------------------------------------------------------------- aggregates of runs

  function Lengths(run: Run): (ls: seq<nat>)
    ensures |ls| == |run| && forall i :: 0 <= i < |run| ==> ls[i] == run[i].frame.length
  {
    seq(|run|, i requires 0 <= i < |run| => run[i].frame.length)
  }

  function AggregateOf(run: Run): Aggregate
    requires run != []
  {
    var first := run[0].frame;
    Aggregate(first.timestamp, first.mode, first.rateMbps, Groupable(first), Lengths(run))
  }

  /** `aggregates` are the runs, one by one. */
  ghost predicate Represents(aggregates: seq<Aggregate>, runs: seq<Run>) {
    |aggregates| == |runs| &&
    forall k :: 0 <= k < |runs| ==> runs[k] != [] && aggregates[k] == AggregateOf(runs[k])
  }

  lemma {:induction false} RepresentsNew(aggregates: seq<Aggregate>, runs: seq<Run>, next: Fed)
    requires Represents(aggregates, runs)
    ensures Represents(aggregates + [AggregateOf([next])], Add(runs, next, false))
  {
  }

  function AddTo(a: Aggregate, f: Frame): Aggregate {
    a.(frames := a.frames + [f.length])
  }

  lemma {:induction false} RepresentsJoined(aggregates: seq<Aggregate>, open: Aggregate, runs: seq<Run>, next: Fed)
    requires Represents(aggregates + [open], runs)
    ensures Represents(aggregates + [AddTo(open, next.frame)], Add(runs, next, true))
  {
    var last := runs[|runs| - 1];
    assert (aggregates + [open])[|runs| - 1] == open;
    assert Lengths(last + [next]) == Lengths(last) + [next.frame.length];
    assert forall k :: 0 <= k < |runs| - 1 ==> (aggregates + [open])[k] == aggregates[k];
  }

  /** Lengths of all frames, in order. */
  function AllFrames(aggregates: seq<Aggregate>): seq<nat> {
    if aggregates == [] then [] else AllFrames(aggregates[..|aggregates| - 1]) + aggregates[|aggregates| - 1].frames
  }

  lemma {:induction false} FramesOfRuns(aggregates: seq<Aggregate>, runs: seq<Run>)
    requires Represents(aggregates, runs)
    ensures AllFrames(aggregates) == Lengths(Flatten(runs))
  {
    if runs != [] {
      var n := |runs| - 1;
      FramesOfRuns(aggregates[..n], runs[..n]);
      assert aggregates[n] == AggregateOf(runs[n]);
      assert Lengths(Flatten(runs[..n]) + runs[n]) == Lengths(Flatten(runs[..n])) + Lengths(runs[n]);
    }
  }

  // ---------------------------------------------------------------- the tracker

  function Closing(current: Option<Aggregate>): seq<Aggregate> {
    match current
    case None => []
    case Some(a) => [a]
  }

  /** Emitted aggregates followed by the open one are the runs of everything fed. */
  ghost predicate Grouped(fed: seq<Fed>, slack: real, emitted: seq<Aggregate>, current: Option<Aggregate>) {
    Represents(emitted + Closing(current), Runs(fed, slack))
  }

  /** The remembered frame is the last one fed; an aggregate is open exactly when that frame is
      groupable and nothing was flushed since. */
  ghost predicate Remembers(fed: seq<Fed>, flushed: bool, open: bool, timestamp: Option<int>,
                            transmitter: Option<Bytes>, airtime: real)
  {
    && (open <==> fed != [] && !flushed && Groupable(fed[|fed| - 1].frame))
    && (fed != [] ==> var last := fed[|fed| - 1].frame;
                      timestamp == last.timestamp && transmitter == last.transmitter && airtime == OwnAirtime(last))
  }

  lemma {:induction false} RemembersLast(fed: seq<Fed>, next: Fed)
    ensures var f := next.frame;
            Remembers(fed + [next], false, Groupable(f), f.timestamp, f.transmitter, OwnAirtime(f))
  {
  }

  lemma {:induction false} GroupedFlush(fed: seq<Fed>, slack: real, emitted: seq<Aggregate>, current: Option<Aggregate>)
    requires Grouped(fed, slack, emitted, current)
    ensures Grouped(fed, slack, emitted + Closing(current), None)
  {
    Nil(emitted + Closing(current));
  }

  ghost predicate LastJoinsNext(fed: seq<Fed>, next: Fed, slack: real) {
    fed != [] && Joins(fed[|fed| - 1].frame, next, slack)
  }

  lemma {:induction false} GroupedJoin(fed: seq<Fed>, slack: real, emitted: seq<Aggregate>, open: Aggregate, next: Fed)
    requires Grouped(fed, slack, emitted, Some(open)) && LastJoinsNext(fed, next, slack)
    ensures Grouped(fed + [next], slack, emitted, Some(AddTo(open, next.frame)))
  {
    assert (fed + [next])[..|fed|] == fed;
    RepresentsJoined(emitted, open, Runs(fed, slack), next);
  }

  lemma {:induction false} GroupedNew(fed: seq<Fed>, slack: real, emitted: seq<Aggregate>, current: Option<Aggregate>,
                                      next: Fed)
    requires Grouped(fed, slack, emitted, current) && !LastJoinsNext(fed, next, slack)
    ensures Grouped(fed + [next], slack, emitted + Closing(current), Some(AggregateOf([next])))
    ensures Grouped(fed + [next], slack, emitted + (Closing(current) + [AggregateOf([next])]), None)
  {
    assert (fed + [next])[..|fed|] == fed;
    RepresentsNew(emitted + Closing(current), Runs(fed, slack), next);
    Assoc(emitted, Closing(current), [AggregateOf([next])]);
    Nil(emitted + (Closing(current) + [AggregateOf([next])]));
  }

  lemma {:induction false} RunOfOne(next: Fed)
    ensures AggregateOf([next]) ==
            var f := next.frame; Aggregate(f.timestamp, f.mode, f.rateMbps, Groupable(f), [f.length])
  {
    assert Lengths([next]) == [next.frame.length];
  }

  class AggregationTracker {
    const slack: real
    var current: Option<Aggregate>
    var completed: nat
    var lastTimestamp: Option<int>
    var lastTransmitter: Option<Bytes>
    var lastAirtime: real
    ghost var fed: seq<Fed>
    ghost var flushed: bool
    ghost var emitted: seq<Aggregate>

    ghost predicate Valid()
      reads this
    {
      && Grouped(fed, slack, emitted, current) && completed == |emitted|
      && Remembers(fed, flushed, current.Some?, lastTimestamp, lastTransmitter, lastAirtime)
    }

    constructor (slackUs: Option<real>)
      ensures Valid() && fed == [] && emitted == [] && !flushed
      ensures slack == if slackUs.Some? then slackUs.value else 24.0
    {
      slack := if slackUs.Some? then slackUs.value else SLACK_US;
      current, completed, lastTimestamp, lastTransmitter, lastAirtime := None, 0, None, None, 0.0;
      fed, flushed, emitted := [], false, [];
    }

    /** Whatever is open is emitted and counted. */
    method Close() returns (out: seq<Aggregate>)
      modifies this`current, this`completed
      ensures current == None && out == Closing(old(current)) && completed == old(completed) + |out|
    {
      out := if current.Some? then [current.value] else [];
      completed := completed + |out|;
      current := None;
    }

    method Flush() returns (out: seq<Aggregate>)
      requires Valid()
      modifies this
      ensures Valid() && fed == old(fed) && emitted == old(emitted) + out && flushed && current == None
    {
      GroupedFlush(fed, slack, emitted, current);
      out := Close();
      emitted := emitted + out;
      flushed := true;
    }

    /** Does the frame continue what is open? */
    predicate Continues(f: Frame)
      reads this
      requires f.timestamp.Some?
    {
      && current.Some? && f.transmitter.Some? && f.transmitter == lastTransmitter
      && lastTimestamp.Some? && 0 <= f.timestamp.value - lastTimestamp.value
      && (f.timestamp.value - lastTimestamp.value) as real <= lastAirtime + slack
    }

    method ResetLast(f: Frame)
      modifies this`lastTimestamp, this`lastTransmitter, this`lastAirtime
      ensures lastTimestamp == f.timestamp && lastTransmitter == f.transmitter && lastAirtime == OwnAirtime(f)
    {
      lastTimestamp, lastTransmitter, lastAirtime := f.timestamp, f.transmitter, OwnAirtime(f);
    }

    method Feed(f: Frame) returns (out: seq<Aggregate>)
      requires Valid()
      modifies this
      ensures Valid() && fed == old(fed) + [Fed(f, old(flushed))] && !flushed && emitted == old(emitted) + out
    {
      RemembersLast(fed, Fed(f, flushed));
      out := Place(f);
      ResetLast(f);
      fed, flushed, emitted := fed + [Fed(f, flushed)], false, emitted + out;
    }

    /** The three branches of feed. */
    method Place(f: Frame) returns (out: seq<Aggregate>)
      requires Valid()
      modifies this`current, this`completed
      ensures Grouped(fed + [Fed(f, flushed)], slack, emitted + out, current)
      ensures completed == |emitted + out| && (current.Some? <==> Groupable(f))
    {
      ghost var next := Fed(f, flushed);
      if !f.ampdu || f.timestamp.None? {
        PlaceNew(fed, slack, emitted, current, next, Aggregate(f.timestamp, f.mode, f.rateMbps, false, [f.length]));
        out := Close();
        completed := completed + 1;
        out := out + [Aggregate(f.timestamp, f.mode, f.rateMbps, false, [f.length])];
      } else if Continues(f) {
        GroupedJoin(fed, slack, emitted, current.value, next);
        Nil(emitted);
        out := [];
        current := Some(AddTo(current.value, f));
      } else {
        PlaceNew(fed, slack, emitted, current, next, Aggregate(f.timestamp, f.mode, f.rateMbps, true, [f.length]));
        out := Close();
        current := Some(Aggregate(f.timestamp, f.mode, f.rateMbps, true, [f.length]));
      }
    }
  }

  /** A frame that does not join opens an aggregate of its own, or is one. */
  lemma {:induction false} PlaceNew(fed: seq<Fed>, slack: real, emitted: seq<Aggregate>, current: Option<Aggregate>,
                                    next: Fed, a: Aggregate)
    requires Grouped(fed, slack, emitted, current) && !LastJoinsNext(fed, next, slack)
    requires var f := next.frame; a == Aggregate(f.timestamp, f.mode, f.rateMbps, Groupable(f), [f.length])
    ensures Grouped(fed + [next], slack, emitted + Closing(current), Some(a))
    ensures Grouped(fed + [next], slack, emitted + (Closing(current) + [a]), None)
  {
    RunOfOne(next);
    GroupedNew(fed, slack, emitted, current, next);
  }

  // ---------------------------------------------------------------- whole runs

  /** A run of calls: Some(frame) feeds, None flushes. */
  function Calls(calls: seq<Option<Frame>>): (seq<Fed>, bool) {
    if calls == [] then ([], false)
    else
      var (fed, flushed) := Calls(calls[..|calls| - 1]);
      Next(fed, flushed, calls[|calls| - 1])
  }

  function Next(fed: seq<Fed>, flushed: bool, call: Option<Frame>): (seq<Fed>, bool) {
    match call
    case None => (fed, true)
    case Some(f) => (fed + [Fed(f, flushed)], false)
  }

  method Serve(tracker: AggregationTracker, call: Option<Frame>) returns (out: seq<Aggregate>)
    requires tracker.Valid()
    modifies tracker
    ensures tracker.Valid() && tracker.emitted == old(tracker.emitted) + out
    ensures (tracker.fed, tracker.flushed) == Next(old(tracker.fed), old(tracker.flushed), call)
  {
    match call {
      case None => out := tracker.Flush();
      case Some(f) => out := tracker.Feed(f);
    }
  }

  /** Whatever is fed and flushed, what comes out, with a last flush, is exactly the maximal runs of
      the stream: nothing is lost, repeated or reordered, and the count is right. */
  method Track(calls: seq<Option<Frame>>, slack: real) returns (out: seq<Aggregate>, completed: nat)
    ensures Represents(out, Runs(Calls(calls).0, slack)) && completed == |out|
    ensures AllFrames(out) == Lengths(Calls(calls).0)
  {
    var tracker := new AggregationTracker(Some(slack));
    out := [];
    for n := 0 to |calls|
      invariant tracker.Valid() && fresh(tracker) && tracker.slack == slack && tracker.emitted == out
      invariant (tracker.fed, tracker.flushed) == Calls(calls[..n])
    {
      assert calls[..n + 1][..n] == calls[..n] && calls[..n + 1][n] == calls[n];
      var more := Serve(tracker, calls[n]);
      out := out + more;
    }
    assert calls[..|calls|] == calls;
    var last := tracker.Flush();
    out := out + last;
    completed := tracker.completed;
    RunsAreMaximal(tracker.fed, slack);
    FramesOfRuns(out, Runs(tracker.fed, slack));
  }
}
