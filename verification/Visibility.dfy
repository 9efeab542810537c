/** The two passes around the window (research/delivery_evidence.py): one radio's capture, which
    turns wrapping stamps into the nondecreasing ticks the window needs, and the comparison of two
    radios' answers. */
module Visibility {
  import opened Wire
  import opened ClockFit
  import BlockAck
  import Delivery

  /** What the receive descriptor decodes to, as far as capture looks at it. */
  datatype Reception = Reception(frame: Bytes, timestamp: Option<nat>, fcsError: bool)

  datatype Stamped = Stamped(frame: Bytes, tick: int)

  datatype Counts = Counts(short: nat, fcsFailed: nat, untimed: nat, backward: nat, frames: nat,
                           warmUp: nat, windows: nat, ackedSeen: nat, ackedUnseen: nat, seenUnacked: nat)

  // ---------------------------------------------------------------- capture

  function History(kept: seq<Stamped>): (h: seq<Delivery.Observation>)
    ensures |h| == |kept|
    ensures forall i :: 0 <= i < |h| ==> h[i] == Delivery.Observation(Delivery.QosKey(kept[i].frame), kept[i].tick)
  {
    seq(|kept|, i requires 0 <= i < |kept| => Delivery.Observation(Delivery.QosKey(kept[i].frame), kept[i].tick))
  }

  datatype Fate = Short | FcsFailed | Untimed | Backward | Shown

  predicate Usable(r: Reception) {
    |r.frame| >= 2 && !r.fcsError && r.timestamp.Some?
  }

  /** The stamp ticks are counted from: that of the first usable frame. */
  function Origin(rs: seq<Reception>): (o: Option<nat>)
    ensures rs != [] && Usable(rs[|rs| - 1]) ==> o.Some?
  {
    if rs == [] then None
    else if Origin(rs[..|rs| - 1]).Some? then Origin(rs[..|rs| - 1])
    else
      var last := rs[|rs| - 1];
      if Usable(last) then last.timestamp else None
  }

  /** The tick of the last reception, if it is usable. */
  function Tick(rs: seq<Reception>): int
    requires rs != [] && Usable(rs[|rs| - 1])
  {
    Delta32(rs[|rs| - 1].timestamp.value, Origin(rs).value)
  }

  /** What becomes of the last reception. */
  function FateOf(rs: seq<Reception>): Fate
    requires rs != []
    decreases rs, 0
  {
    var last := rs[|rs| - 1];
    if |last.frame| < 2 then Short
    else if last.fcsError then FcsFailed
    else if last.timestamp.None? then Untimed
    else if Previous(Kept(rs[..|rs| - 1])).Some? && Tick(rs) < Previous(Kept(rs[..|rs| - 1])).value then Backward
    else Shown
  }

  function Previous(kept: seq<Stamped>): Option<int> {
    if kept == [] then None else Some(kept[|kept| - 1].tick)
  }

  /** Frames shown to the window: usable, and not stamped before the last one shown. */
  function Kept(rs: seq<Reception>): seq<Stamped>
    decreases rs, 1
  {
    if rs == [] then []
    else if FateOf(rs).Shown? then Kept(rs[..|rs| - 1]) + [Stamped(rs[|rs| - 1].frame, Tick(rs))]
    else Kept(rs[..|rs| - 1])
  }

  function CountOf(rs: seq<Reception>, fate: Fate): nat {
    if rs == [] then 0
    else CountOf(rs[..|rs| - 1], fate) + (if FateOf(rs) == fate then 1 else 0)
  }

  /** The naive answer to frame i of those kept. */
  ghost function Expected(kept: seq<Stamped>, lookback: int, i: nat): Delivery.Answer
    requires i < |kept|
  {
    Delivery.NaiveAnswer(History(kept)[..i], lookback, Delivery.QosKey(kept[i].frame),
                         BlockAck.ParseControl(kept[i].frame), kept[i].tick)
  }

  ghost predicate Answers(answers: seq<Delivery.Answer>, kept: seq<Stamped>, lookback: int) {
    |answers| == |kept| && forall i :: 0 <= i < |kept| ==> answers[i] == Expected(kept, lookback, i)
  }

  lemma {:induction false} AnswersGrow(answers: seq<Delivery.Answer>, kept: seq<Stamped>, lookback: int,
                                       now: Stamped, answer: Delivery.Answer)
    requires Answers(answers, kept, lookback)
    requires answer == Delivery.NaiveAnswer(History(kept), lookback, Delivery.QosKey(now.frame),
                                            BlockAck.ParseControl(now.frame), now.tick)
    ensures Answers(answers + [answer], kept + [now], lookback)
    ensures History(kept + [now]) == History(kept) + [Delivery.Observation(Delivery.QosKey(now.frame), now.tick)]
  {
    var all := kept + [now];
    assert History(all)[..|kept|] == History(kept);
    forall i | 0 <= i < |kept|
      ensures Expected(all, lookback, i) == Expected(kept, lookback, i)
    {
      assert History(all)[..i] == History(kept)[..i];
    }
  }

  /** What one answer adds to the counts. */
  function Count(c: Counts, a: Delivery.Answer): Counts {
    match a
    case Nothing => c
    case WarmingUp => c.(warmUp := c.warmUp + 1)
    case Window(acked, seen) =>
      c.(windows := c.windows + 1, ackedSeen := c.ackedSeen + |acked * seen|,
         ackedUnseen := c.ackedUnseen + |acked - seen|, seenUnacked := c.seenUnacked + |seen - acked|)
  }

  function WarmUpsIn(answers: seq<Delivery.Answer>): nat {
    if answers == [] then 0
    else WarmUpsIn(answers[..|answers| - 1]) + (if answers[|answers| - 1].WarmingUp? then 1 else 0)
  }

  function WindowsIn(answers: seq<Delivery.Answer>): nat {
    if answers == [] then 0
    else WindowsIn(answers[..|answers| - 1]) + (if answers[|answers| - 1].Window? then 1 else 0)
  }

  /** Sequences of all windows that are acknowledged or not, and seen or not. */
  function BitsIn(answers: seq<Delivery.Answer>, acked: bool, seen: bool): nat
  {
    if answers == [] then 0
    else
      var last := answers[|answers| - 1];
      BitsIn(answers[..|answers| - 1], acked, seen) +
      (if last.Window? then
         |set s | s in last.acked + last.seen && (s in last.acked <==> acked) && (s in last.seen <==> seen)|
       else 0)
  }

  ghost predicate Counted(c: Counts, answers: seq<Delivery.Answer>) {
    && c.warmUp == WarmUpsIn(answers) && c.windows == WindowsIn(answers)
    && c.ackedSeen == BitsIn(answers, true, true)
    && c.ackedUnseen == BitsIn(answers, true, false)
    && c.seenUnacked == BitsIn(answers, false, true)
  }

  lemma {:induction false} SplitBy<T>(a: set<T>, b: set<T>)
    ensures |a| == |a * b| + |a - b|
  {
    assert a == a * b + (a - b);
  }

  lemma {:induction false} CountedGrows(c: Counts, answers: seq<Delivery.Answer>, a: Delivery.Answer)
    requires Counted(c, answers)
    ensures Counted(Count(c, a), answers + [a])
  {
    assert (answers + [a])[..|answers|] == answers;
    if a.Window? {
      var either := a.acked + a.seen;
      assert (set s | s in either && (s in a.acked <==> true) && (s in a.seen <==> true)) == a.acked * a.seen;
      assert (set s | s in either && (s in a.acked <==> true) && (s in a.seen <==> false)) == a.acked - a.seen;
      assert (set s | s in either && (s in a.acked <==> false) && (s in a.seen <==> true)) == a.seen - a.acked;
    }
  }

  ghost predicate Filed(c: Counts, rs: seq<Reception>) {
    && c.short == CountOf(rs, Short) && c.fcsFailed == CountOf(rs, FcsFailed) && c.untimed == CountOf(rs, Untimed)
    && c.backward == CountOf(rs, Backward) && c.frames == CountOf(rs, Shown)
  }

  function File(c: Counts, fate: Fate): Counts {
    match fate
    case Short => c.(short := c.short + 1)
    case FcsFailed => c.(fcsFailed := c.fcsFailed + 1)
    case Untimed => c.(untimed := c.untimed + 1)
    case Backward => c.(backward := c.backward + 1)
    case Shown => c.(frames := c.frames + 1)
  }

  /** Where capture stands after the receptions `rs`. */
  ghost predicate Caught(rs: seq<Reception>, lookback: int, origin: Option<nat>, previous: Option<int>,
                         answers: seq<Delivery.Answer>, counts: Counts)
  {
    && origin == Origin(rs) && previous == Previous(Kept(rs))
    && Answers(answers, Kept(rs), lookback) && Counted(counts, answers) && Filed(counts, rs)
  }

  lemma {:induction false} Prefix(rs: seq<Reception>, n: nat)
    requires n < |rs|
    ensures rs[..n + 1] == rs[..n] + [rs[n]]
  {
  }

  lemma {:induction false} ScreenedGrows(rs: seq<Reception>, r: Reception, counts: Counts)
    requires Filed(counts, rs)
    ensures Filed(File(counts, FateOf(rs + [r])), rs + [r])
    ensures Kept(rs + [r]) ==
            if FateOf(rs + [r]).Shown? then Kept(rs) + [Stamped(r.frame, Tick(rs + [r]))] else Kept(rs)
  {
    assert (rs + [r])[..|rs|] == rs;
  }

  /** The two groups of counters do not share a field. */
  lemma {:induction false} CountsApart(c: Counts, a: Delivery.Answer)
    ensures Count(File(c, Shown), a) == File(Count(c, a), Shown)
  {
  }

  lemma {:induction false} CaughtDropped(rs: seq<Reception>, lookback: int, origin: Option<nat>, previous: Option<int>,
                                         answers: seq<Delivery.Answer>, counts: Counts, r: Reception)
    requires Caught(rs, lookback, origin, previous, answers, counts) && !FateOf(rs + [r]).Shown?
    ensures Caught(rs + [r], lookback, Origin(rs + [r]), previous, answers, File(counts, FateOf(rs + [r])))
    ensures Kept(rs + [r]) == Kept(rs)
  {
    ScreenedGrows(rs, r, counts);
  }

  lemma {:induction false} CaughtShown(rs: seq<Reception>, lookback: int, origin: Option<nat>, previous: Option<int>,
                                       answers: seq<Delivery.Answer>, counts: Counts, r: Reception,
                                       answer: Delivery.Answer)
    requires Caught(rs, lookback, origin, previous, answers, counts) && FateOf(rs + [r]).Shown?
    requires answer == Delivery.NaiveAnswer(History(Kept(rs)), lookback, Delivery.QosKey(r.frame),
                                            BlockAck.ParseControl(r.frame), Tick(rs + [r]))
    ensures Caught(rs + [r], lookback, Origin(rs + [r]), Some(Tick(rs + [r])), answers + [answer],
                   Count(File(counts, Shown), answer))
    ensures History(Kept(rs + [r])) ==
            History(Kept(rs)) + [Delivery.Observation(Delivery.QosKey(r.frame), Tick(rs + [r]))]
  {
    ScreenedGrows(rs, r, counts);
    AnswersGrow(answers, Kept(rs), lookback, Stamped(r.frame, Tick(rs + [r])), answer);
    CountedGrows(counts, answers, answer);
    CountsApart(counts, answer);
  }

  /** The tests at the head of the loop body. */
  method Screen(ghost rs: seq<Reception>, r: Reception, origin: Option<nat>, previous: Option<int>)
    returns (fate: Fate, origin': Option<nat>, tick: int)
    requires origin == Origin(rs) && previous == Previous(Kept(rs))
    ensures fate == FateOf(rs + [r]) && origin' == Origin(rs + [r])
    ensures fate.Shown? ==> tick == Tick(rs + [r]) && (previous.Some? ==> previous.value <= tick)
  {
    assert (rs + [r])[..|rs|] == rs;
    origin', tick := origin, 0;
    if |r.frame| < 2 {
      return Short, origin', tick;
    }
    if r.fcsError {
      return FcsFailed, origin', tick;
    }
    if r.timestamp.None? {
      return Untimed, origin', tick;
    }
    if origin.None? {
      origin' := r.timestamp;
    }
    tick := Delta32(r.timestamp.value, origin'.value);
    fate := if previous.Some? && tick < previous.value then Backward else Shown;
  }

  /** Every answer is the naive one over the frames kept before it, with no assumption on the
      stamps: skipping backward frames is what gives the window nondecreasing ticks. */
  method Capture(rs: seq<Reception>, lookback: int) returns (answers: seq<Delivery.Answer>, counts: Counts)
    requires lookback >= 0
    ensures Answers(answers, Kept(rs), lookback) && Counted(counts, answers) && Filed(counts, rs)
  {
    var window := new Delivery.DeliveryWindow(lookback);
    var origin, previous: Option<int> := None, None;
    answers, counts := [], Counts(0, 0, 0, 0, 0, 0, 0, 0, 0, 0);
    for n := 0 to |rs|
      invariant window.Valid() && fresh(window) && window.lookback == lookback
      invariant window.history == History(Kept(rs[..n]))
      invariant Caught(rs[..n], lookback, origin, previous, answers, counts)
    {
      ghost var past := rs[..n];
      Prefix(rs, n);
      var fate, origin', tick := Screen(past, rs[n], origin, previous);
      if fate.Shown? {
        var answer := window.Observe(rs[n].frame, tick);
        CaughtShown(past, lookback, origin, previous, answers, counts, rs[n], answer);
        answers, counts, previous := answers + [answer], Count(File(counts, Shown), answer), Some(tick);
      } else {
        CaughtDropped(past, lookback, origin, previous, answers, counts, rs[n]);
        counts := File(counts, fate);
      }
      origin := origin';
    }
    assert rs[..|rs|] == rs;
  }

  /** Every reception has one fate, and every acknowledged or seen bit of every window is counted. */
  lemma {:induction false} FatesPartition(rs: seq<Reception>)
    ensures CountOf(rs, Short) + CountOf(rs, FcsFailed) + CountOf(rs, Untimed) + CountOf(rs, Backward) +
            CountOf(rs, Shown) == |rs|
    ensures CountOf(rs, Shown) == |Kept(rs)|
  {
    if rs != [] {
      FatesPartition(rs[..|rs| - 1]);
    }
  }

  const HALF_WRAP := 0x8000_0000
  const WRAP := 0x1_0000_0000

  /** True time of the first usable frame, and of the last. */
  function FirstTime(rs: seq<Reception>, times: seq<int>): int
    requires |rs| == |times|
  {
    if rs == [] then 0
    else if Origin(rs[..|rs| - 1]).Some? then FirstTime(rs[..|rs| - 1], times[..|rs| - 1])
    else times[|rs| - 1]
  }

  function LastTime(rs: seq<Reception>, times: seq<int>): int
    requires |rs| == |times|
  {
    if rs == [] then 0
    else if Usable(rs[|rs| - 1]) then times[|rs| - 1]
    else LastTime(rs[..|rs| - 1], times[..|rs| - 1])
  }

  /** `times` are the unwrapped times of the receptions: those of usable frames leave the stamps their
      low 32 bits, never run backwards, and are never more than half a wrap apart. */
  ghost predicate TrueTimes(rs: seq<Reception>, times: seq<int>) {
    |rs| == |times| &&
    (rs == [] ||
     var n := |rs| - 1;
     && TrueTimes(rs[..n], times[..n])
     && (Usable(rs[n]) ==>
           && rs[n].timestamp.value == times[n] % WRAP
           && (Origin(rs[..n]).Some? ==> 0 <= times[n] - LastTime(rs[..n], times[..n]) <= HALF_WRAP)))
  }

  lemma {:induction false} OriginIsFirst(rs: seq<Reception>, times: seq<int>)
    requires TrueTimes(rs, times) && Origin(rs).Some?
    ensures Origin(rs) == Some(FirstTime(rs, times) % WRAP)
    ensures FirstTime(rs, times) <= LastTime(rs, times)
  {
    var n := |rs| - 1;
    if Origin(rs[..n]).Some? {
      OriginIsFirst(rs[..n], times[..n]);
    }
  }

  /** A time past half a wrap shows as a negative tick. */
  lemma {:induction false} LateTick(value: int, origin: int)
    requires HALF_WRAP <= value - origin < WRAP
    ensures Delta32(value % WRAP, origin % WRAP) < 0
  {
    var v, o := value % WRAP, origin % WRAP;
    var k := value / WRAP - origin / WRAP;
    assert value - origin == v - o + WRAP * k;
  }

  /** What is kept after a prefix without backward frames. */
  ghost predicate Onward(rs: seq<Reception>, times: seq<int>)
    requires |rs| == |times|
  {
    && CountOf(rs, Backward) == 0
    && (Origin(rs).Some? ==> Previous(Kept(rs)) == Some(LastTime(rs, times) - FirstTime(rs, times)))
  }

  lemma {:induction false} FirstUsable(rs: seq<Reception>, times: seq<int>)
    requires rs != [] && TrueTimes(rs, times) && Origin(rs[..|rs| - 1]).None?
    requires Onward(rs[..|rs| - 1], times[..|rs| - 1]) && Previous(Kept(rs[..|rs| - 1])).None?
    ensures Onward(rs, times) && (Origin(rs).Some? ==> LastTime(rs, times) == FirstTime(rs, times))
  {
    if Usable(rs[|rs| - 1]) {
      DeltaIsTrue(times[|rs| - 1], times[|rs| - 1]);
    }
  }

  /** No frame is lost as backward if and only if all are within half a wrap of the first, whether or
      not the stamps wrapped meanwhile. Until then the last frame kept has its true time. */
  lemma {:induction false} NoneBackward(rs: seq<Reception>, times: seq<int>)
    requires TrueTimes(rs, times)
    ensures CountOf(rs, Backward) == 0 <==>
            Origin(rs).None? || LastTime(rs, times) - FirstTime(rs, times) < HALF_WRAP
    ensures CountOf(rs, Backward) == 0 ==> Onward(rs, times)
    ensures Origin(rs).None? ==> Kept(rs) == []
  {
    if rs != [] {
      var n := |rs| - 1;
      NoneBackward(rs[..n], times[..n]);
      if Origin(rs[..n]).None? {
        FirstUsable(rs, times);
      } else {
        OriginIsFirst(rs[..n], times[..n]);
        NextUsable(rs, times);
      }
    }
  }

  lemma {:induction false} NextUsable(rs: seq<Reception>, times: seq<int>)
    requires rs != [] && TrueTimes(rs, times)
    requires var n := |rs| - 1; var past, before := rs[..n], times[..n];
             && Origin(past) == Some(FirstTime(past, before) % WRAP)
             && FirstTime(past, before) <= LastTime(past, before)
             && (CountOf(past, Backward) == 0 <==> LastTime(past, before) - FirstTime(past, before) < HALF_WRAP)
             && (CountOf(past, Backward) == 0 ==> Onward(past, before))
    ensures CountOf(rs, Backward) == 0 <==> LastTime(rs, times) - FirstTime(rs, times) < HALF_WRAP
    ensures CountOf(rs, Backward) == 0 ==> Onward(rs, times)
  {
    var n := |rs| - 1;
    var first := FirstTime(rs[..n], times[..n]);
    if Usable(rs[n]) && CountOf(rs[..n], Backward) == 0 {
      if times[n] - first < HALF_WRAP {
        DeltaIsTrue(times[n], first);
      } else {
        LateTick(times[n], first);
      }
    }
  }

  // ---------------------------------------------------------------- comparison

  datatype Event = Event(timestamp: nat, acked: set<nat>, seen: set<nat>)

  /** The events both radios filed under one BlockAck's fingerprint. */
  datatype Common = Common(first: seq<Event>, second: seq<Event>)

  datatype Opportunities = Opportunities(repeated: nat, outside: nat, shared: nat,
                                         both: nat, onlyFirst: nat, onlySecond: nat, neither: nat)

  /** Within 100 ticks of where the clock line puts it. */
  predicate InGate(first: Event, second: Event, origin: Pair, line: Line) {
    var r := Residual(Delta32(first.timestamp, origin.first) as real, Delta32(second.timestamp, origin.second) as real,
                      line);
    -100.0 <= r <= 100.0
  }

  method Gate(first: Event, second: Event, origin: Pair, line: Line) returns (ok: bool)
    ensures ok <==> InGate(first, second, origin, line)
  {
    var residual := Delta32(second.timestamp, origin.second) as real -
                    line.slope * Delta32(first.timestamp, origin.first) as real - line.intercept;
    ok := !(residual > 100.0 || residual < -100.0);
  }

  predicate Shared(c: Common, origin: Pair, line: Line) {
    |c.first| == 1 && |c.second| == 1 && InGate(c.first[0], c.second[0], origin, line)
  }

  function AckedShared(cs: seq<Common>, origin: Pair, line: Line): nat {
    if cs == [] then 0
    else
      var last := cs[|cs| - 1];
      AckedShared(cs[..|cs| - 1], origin, line) + (if Shared(last, origin, line) then |last.first[0].acked| else 0)
  }

  /** Acknowledged sequences of the shared events that the first radio saw or not, and the second. */
  function Acked(cs: seq<Common>, origin: Pair, line: Line, byFirst: bool, bySecond: bool): nat {
    if cs == [] then 0
    else
      var last := cs[|cs| - 1];
      Acked(cs[..|cs| - 1], origin, line, byFirst, bySecond) +
      (if Shared(last, origin, line) then
         |set s | s in last.first[0].acked && (s in last.first[0].seen <==> byFirst) &&
                  (s in last.second[0].seen <==> bySecond)|
       else 0)
  }

  /** Each acknowledged sequence of each shared event is exactly one of the four opportunities. */
  lemma {:induction false} OpportunitiesConserved(cs: seq<Common>, origin: Pair, line: Line)
    ensures Acked(cs, origin, line, true, true) + Acked(cs, origin, line, true, false)
              + Acked(cs, origin, line, false, true) + Acked(cs, origin, line, false, false)
            == AckedShared(cs, origin, line)
  {
    if cs != [] {
      var last := cs[|cs| - 1];
      OpportunitiesConserved(cs[..|cs| - 1], origin, line);
      if Shared(last, origin, line) {
        FourWays(last.first[0].acked, last.first[0].seen, last.second[0].seen);
        Cells(last.first[0].acked, last.first[0].seen, last.second[0].seen);
      }
    }
  }

  lemma {:induction false} Cells(acked: set<nat>, a: set<nat>, b: set<nat>)
    ensures (set s | s in acked && (s in a <==> true) && (s in b <==> true)) == acked * a * b
    ensures (set s | s in acked && (s in a <==> true) && (s in b <==> false)) == acked * a - b
    ensures (set s | s in acked && (s in a <==> false) && (s in b <==> true)) == acked * b - a
    ensures (set s | s in acked && (s in a <==> false) && (s in b <==> false)) == acked - a - b
  {
  }

  lemma {:induction false} FourWays(acked: set<nat>, a: set<nat>, b: set<nat>)
    ensures |acked * a * b| + |acked * a - b| + |acked * b - a| + |acked - a - b| == |acked|
  {
    SplitBy(acked, a);
    SplitBy(acked * a, b);
    SplitBy(acked - a, b);
    assert (acked - a) * b == acked * b - a;
  }

  function RepeatedIn(cs: seq<Common>): nat {
    if cs == [] then 0
    else
      var last := cs[|cs| - 1];
      RepeatedIn(cs[..|cs| - 1]) + (if |last.first| != 1 || |last.second| != 1 then 1 else 0)
  }

  function SharedIn(cs: seq<Common>, origin: Pair, line: Line): nat {
    if cs == [] then 0
    else SharedIn(cs[..|cs| - 1], origin, line) + (if Shared(cs[|cs| - 1], origin, line) then 1 else 0)
  }

  ghost predicate Compared(o: Opportunities, cs: seq<Common>, origin: Pair, line: Line) {
    && o.repeated == RepeatedIn(cs) && o.shared == SharedIn(cs, origin, line)
    && o.repeated + o.outside + o.shared == |cs|
    && o.both == Acked(cs, origin, line, true, true) && o.onlyFirst == Acked(cs, origin, line, true, false)
    && o.onlySecond == Acked(cs, origin, line, false, true) && o.neither == Acked(cs, origin, line, false, false)
  }

  /** The counting loop of compare, over the fingerprints both radios have. */
  method Compare(cs: seq<Common>, origin: Pair, line: Line) returns (o: Opportunities)
    ensures Compared(o, cs, origin, line)
    ensures o.both + o.onlyFirst + o.onlySecond + o.neither == AckedShared(cs, origin, line)
  {
    o := Opportunities(0, 0, 0, 0, 0, 0, 0);
    for n := 0 to |cs|
      invariant Compared(o, cs[..n], origin, line)
    {
      var c := cs[n];
      assert cs[..n + 1][..n] == cs[..n] && cs[..n + 1][n] == c;
      if |c.first| != 1 || |c.second| != 1 {
        o := o.(repeated := o.repeated + 1);
        continue;
      }
      var gated := Gate(c.first[0], c.second[0], origin, line);
      if !gated {
        o := o.(outside := o.outside + 1);
        continue;
      }
      var acked, a, b := c.first[0].acked, c.first[0].seen, c.second[0].seen;
      Cells(acked, a, b);
      o := o.(shared := o.shared + 1, both := o.both + |acked * a * b|,
              onlyFirst := o.onlyFirst + |acked * a - b|, onlySecond := o.onlySecond + |acked * b - a|,
              neither := o.neither + |acked - a - b|);
    }
    assert cs[..|cs|] == cs;
    OpportunitiesConserved(cs, origin, line);
  }
}
