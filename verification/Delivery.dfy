/** Recent-visibility window (research/delivery_evidence.py): a dict and a FIFO that must answer
    every BlockAck as a search of the whole history would. */
module Delivery {
  import opened Wire
  import BlockAck

  datatype Key = Key(transmitter: Bytes, receiver: Bytes, tid: nat, sequence: nat)

  /** What a frame contributes to the history: its key, if it is a QoS data frame, and its tick.
      The program compares integer ticks with a floating-point lookback; both are integers here, in
      a common unit fine enough to hold either. */
  datatype Observation = Observation(key: Option<Key>, tick: int)

  datatype Answer = Nothing | WarmingUp | Window(acked: set<nat>, seen: set<nat>)

  // ---------------------------------------------------------------- frames

  /** Clear MAC header of an unfragmented unicast QoS data frame. */
  function QosKey(frame: Bytes): Option<Key> {
    if |frame| < 26 then None
    else
      var fc, sc := Le16(frame, 0), Le16(frame, 22);
      if Field(fc, 4, 64) != 34 || frame[4] % 2 == 1 || Bit(fc, 1024) then None
      else if sc % 16 != 0 then None
      else
        var offset := if Field(fc, 256, 4) == 3 then 30 else 24;
        if |frame| < offset + 2 then None
        else
          var qos := Le16(frame, offset);
          if Field(qos, 32, 4) != 0 && Field(qos, 32, 4) != 3 then None
          else Some(Key(frame[10..16], frame[4..10], qos % 16, sc / 16))
  }

  // ---------------------------------------------------------------- frames written

  /** A QoS data frame as it goes on the air: `version` in the first octet, `flags` the second octet,
      `fragment` beside the sequence number, a fourth address where both DS bits are set, and a QoS
      control of TID, end-of-service bit, acknowledgement policy and the upper octet. */
  datatype QosFrame = QosFrame(version: nat, flags: Byte, duration: nat, receiver: Bytes, transmitter: Bytes,
                               third: Bytes, sequence: nat, fragment: nat, fourth: Bytes,
                               tid: nat, eosp: bool, policy: nat, amsdu: bool, upper: Byte, body: Bytes)

  predicate Wds(flags: Byte) {
    flags % 4 == 3
  }

  ghost predicate ValidQos(q: QosFrame) {
    && q.version < 4 && q.duration < 65536 && |q.receiver| == |q.transmitter| == |q.third| == 6
    && q.sequence < 4096 && q.fragment < 16 && |q.fourth| == (if Wds(q.flags) then 6 else 0)
    && q.tid < 16 && q.policy < 4
  }

  function QosOctet(q: QosFrame): nat {
    q.tid + (if q.eosp then 16 else 0) + 32 * q.policy + (if q.amsdu then 128 else 0)
  }

  function EncodeQos(q: QosFrame): Bytes
    requires ValidQos(q)
  {
    [0x88 + q.version, q.flags] + PutLe16(q.duration) + q.receiver + q.transmitter + q.third
    + PutLe16(16 * q.sequence + q.fragment) + q.fourth + [QosOctet(q), q.upper] + q.body
  }

  /** To one receiver, not a fragment, and with normal or block acknowledgement. */
  ghost predicate Keyed(q: QosFrame)
    requires ValidQos(q)
  {
    q.receiver[0] % 2 == 0 && (q.flags / 4) % 2 == 0 && q.fragment == 0 && q.policy in {0, 3}
  }

  lemma {:induction false} QosHeader(q: QosFrame)
    requires ValidQos(q)
    ensures var frame := EncodeQos(q);
            && |frame| >= 26 && Le16(frame, 0) == 0x88 + q.version + 256 * q.flags
            && frame[4..10] == q.receiver && frame[10..16] == q.transmitter
            && Le16(frame, 22) == 16 * q.sequence + q.fragment
  {
    var frame, control := EncodeQos(q), PutLe16(16 * q.sequence + q.fragment);
    assert frame[0] == 0x88 + q.version && frame[1] == q.flags;
    assert frame[22] == control[0] && frame[23] == control[1];
  }

  lemma {:induction false} QosControl(q: QosFrame)
    requires ValidQos(q)
    ensures var frame, at := EncodeQos(q), if Wds(q.flags) then 30 else 24;
            |frame| >= at + 2 && Le16(frame, at) == QosOctet(q) + 256 * q.upper
  {
    var frame, at := EncodeQos(q), if Wds(q.flags) then 30 else 24;
    assert frame[at] == QosOctet(q) && frame[at + 1] == q.upper;
  }

  lemma {:induction false} QosFields(q: QosFrame)
    requires ValidQos(q)
    ensures var fc := 0x88 + q.version + 256 * q.flags;
            && Field(fc, 4, 64) == 34 && Bit(fc, 1024) == ((q.flags / 4) % 2 == 1)
            && (Field(fc, 256, 4) == 3 <==> Wds(q.flags))
    ensures var qos := QosOctet(q) + 256 * q.upper;
            Field(qos, 32, 4) == q.policy && qos % 16 == q.tid
  {
    Digit(q.version, 34 + 64 * q.flags, 4);
    Digit(34, q.flags, 64);
    Digit(0x88 + q.version, q.flags, 256);
    Digit(0x88 + q.version + 256 * (q.flags % 4), q.flags / 4, 1024);
    var e, a := if q.eosp then 1 else 0, if q.amsdu then 1 else 0;
    Digit(q.tid, e + 2 * (q.policy + 4 * (a + 2 * q.upper)), 16);
    Digit(q.tid + 16 * e, q.policy + 4 * (a + 2 * q.upper), 32);
    Digit(q.policy, a + 2 * q.upper, 4);
  }

  /** A written frame is keyed by its transmitter, receiver, TID and sequence number, or not at all. */
  lemma {:induction false} QosRoundTrip(q: QosFrame)
    requires ValidQos(q)
    ensures QosKey(EncodeQos(q)) ==
            if Keyed(q) then Some(Key(q.transmitter, q.receiver, q.tid, q.sequence)) else None
  {
    QosHeader(q);
    QosControl(q);
    QosFields(q);
    Digit(q.fragment, q.sequence, 16);
    assert EncodeQos(q)[4] == q.receiver[0];
  }

  /** The frame these octets are, if they have the first header and QoS control. */
  function FrameOf(frame: Bytes): QosFrame
    requires |frame| >= 32 || (|frame| >= 26 && !Wds(frame[1]))
  {
    var at := if Wds(frame[1]) then 30 else 24;
    QosFrame(frame[0] % 4, frame[1], Le16(frame, 2), frame[4..10], frame[10..16], frame[16..22],
             Le16(frame, 22) / 16, Le16(frame, 22) % 16, frame[24..at], frame[at] % 16, frame[at] / 16 % 2 == 1,
             frame[at] / 32 % 4, frame[at] / 128 == 1, frame[at + 1], frame[at + 2..])
  }

  lemma {:induction false} OctetOf(b: Byte)
    ensures b == b % 16 + (if b / 16 % 2 == 1 then 16 else 0) + 32 * (b / 32 % 4) + (if b / 128 == 1 then 128 else 0)
  {
  }

  lemma {:induction false} PairAt(b: Bytes, at: nat)
    requires at + 2 <= |b|
    ensures PutLe16(Le16(b, at)) == b[at..at + 2]
  {
    Digit(b[at], b[at + 1], 256);
  }

  lemma {:induction false} PartsAreValid(frame: Bytes)
    requires |frame| >= 32 || (|frame| >= 26 && !Wds(frame[1]))
    requires 0x88 <= frame[0] < 0x8C
    ensures ValidQos(FrameOf(frame))
    ensures QosOctet(FrameOf(frame)) == frame[if Wds(frame[1]) then 30 else 24]
  {
    OctetOf(frame[if Wds(frame[1]) then 30 else 24]);
  }

  lemma {:induction false} TwoOctets(b: Bytes, at: nat)
    requires at + 2 <= |b|
    ensures b[at..at + 2] == [b[at], b[at + 1]]
  {
  }

  lemma {:induction false} FramePieces(frame: Bytes, at: nat, first: Bytes, duration: Bytes, sequence: Bytes,
                                       control: Bytes)
    requires 24 <= at && at + 2 <= |frame|
    requires first == frame[0..2] && duration == frame[2..4] && sequence == frame[22..24]
    requires control == frame[at..at + 2]
    ensures first + duration + frame[4..10] + frame[10..16] + frame[16..22] + sequence + frame[24..at] + control +
            frame[at + 2..] == frame
  {
  }

  lemma {:induction false} NumbersBack(frame: Bytes, at: nat)
    requires 24 <= at && at + 2 <= |frame|
    ensures PutLe16(Le16(frame, 2)) == frame[2..4]
    ensures PutLe16(16 * (Le16(frame, 22) / 16) + Le16(frame, 22) % 16) == frame[22..24]
  {
    PairAt(frame, 2);
    PairAt(frame, 22);
  }

  /** Octets that are a data frame of QoS subtype are written from their own parts. */
  lemma {:induction false} EncodesBack(frame: Bytes)
    requires |frame| >= 32 || (|frame| >= 26 && !Wds(frame[1]))
    requires 0x88 <= frame[0] < 0x8C
    ensures ValidQos(FrameOf(frame)) && EncodeQos(FrameOf(frame)) == frame
  {
    var q, at := FrameOf(frame), if Wds(frame[1]) then 30 else 24;
    PartsAreValid(frame);
    NumbersBack(frame, at);
    TwoOctets(frame, 0);
    TwoOctets(frame, at);
    FramePieces(frame, at, [0x88 + q.version, q.flags], PutLe16(q.duration), PutLe16(16 * q.sequence + q.fragment),
                [QosOctet(q), q.upper]);
  }

  lemma {:induction false} QosSubtype(frame: Bytes)
    requires QosKey(frame).Some?
    ensures 0x88 <= frame[0] < 0x8C && (|frame| >= 32 || (|frame| >= 26 && !Wds(frame[1])))
  {
    var fc := Le16(frame, 0);
    DataOctet(frame[0], frame[1]);
    Digit(frame[0], frame[1], 256);
  }

  lemma {:induction false} DataOctet(first: Byte, flags: Byte)
    requires Field(first + 256 * flags, 4, 64) == 34
    ensures 0x88 <= first < 0x8C
  {
    Digit(first % 4, first / 4 + 64 * flags, 4);
    Digit(first / 4, flags, 64);
  }

  /** The key of any octets: theirs as a written frame, and there is none for anything else. */
  lemma {:induction false} KeyedExactly(frame: Bytes, key: Key)
    ensures QosKey(frame) == Some(key) <==>
            exists q :: ValidQos(q) && Keyed(q) && EncodeQos(q) == frame &&
                        key == Key(q.transmitter, q.receiver, q.tid, q.sequence)
  {
    if QosKey(frame) == Some(key) {
      QosSubtype(frame);
      EncodesBack(frame);
      QosRoundTrip(FrameOf(frame));
      assert Keyed(FrameOf(frame));
    } else if q :| ValidQos(q) && Keyed(q) && EncodeQos(q) == frame &&
                   key == Key(q.transmitter, q.receiver, q.tid, q.sequence) {
      QosRoundTrip(q);
      assert false;
    }
  }

  // ---------------------------------------------------------------- the naive answer

  ghost predicate WasHeard(history: seq<Observation>, lookback: int, tick: int, key: Key) {
    exists i :: 0 <= i < |history| && history[i].key == Some(key) &&
                0 <= tick - history[i].tick <= lookback
  }

  function Sequence(start: nat, d: nat): nat {
    (start + d) % BlockAck.SEQUENCE_SPACE
  }

  /** Sequences of the BlockAck's window that some frame of the whole history carried, in the
      acknowledged direction, within the lookback. */
  ghost function NaiveSeen(history: seq<Observation>, lookback: int, tick: int, c: BlockAck.Control): set<nat>
    requires c.ba.Window? && c.ta.Some?
  {
    set d | 0 <= d < c.ba.bitmapBits &&
            WasHeard(history, lookback, tick, Key(c.ra, c.ta.value, c.ba.tid, Sequence(c.ba.startSequence, d)))
          :: Sequence(c.ba.startSequence, d)
  }

  /** `key` and `control` are what the current frame parses as. */
  ghost function NaiveAnswer(history: seq<Observation>, lookback: int, key: Option<Key>,
                             control: Option<BlockAck.Control>, tick: int): Answer
  {
    var started := if history == [] then tick else history[0].tick;
    if key.Some? || !IsWindow(control) then Nothing
    else if tick - started < lookback then WarmingUp
    else Window((set s | s in control.value.ba.ackSequences), NaiveSeen(history, lookback, tick, control.value))
  }

  predicate IsWindow(control: Option<BlockAck.Control>) {
    control.Some? && control.value.ba.Window? && control.value.ta.Some?
  }

  lemma {:induction false} WindowHasTransmitter(frame: Bytes)
    ensures var c := BlockAck.ParseControl(frame);
            c.Some? && c.value.ba.Window? ==> c.value.ta.Some?
  {
  }

  // ---------------------------------------------------------------- entries and their index

  datatype Entry = Entry(tick: int, key: Key)

  function Entries(history: seq<Observation>): seq<Entry> {
    if history == [] then []
    else
      var init, last := Entries(history[..|history| - 1]), history[|history| - 1];
      match last.key
      case None => init
      case Some(key) => init + [Entry(last.tick, key)]
  }

  /** Last tick of every key, as repeated assignment to a dict leaves it. */
  function LastTicks(es: seq<Entry>): map<Key, int> {
    if es == [] then map[]
    else
      var last := es[|es| - 1];
      LastTicks(es[..|es| - 1])[last.key := last.tick]
  }

  ghost predicate Sorted(es: seq<Entry>) {
    |es| <= 1 || (Sorted(es[..|es| - 1]) && es[|es| - 2].tick <= es[|es| - 1].tick)
  }

  ghost predicate Nondecreasing(history: seq<Observation>) {
    |history| <= 1 ||
    (Nondecreasing(history[..|history| - 1]) && history[|history| - 2].tick <= history[|history| - 1].tick)
  }

  lemma {:induction false} SortedBetween(es: seq<Entry>, i: nat, j: nat)
    requires Sorted(es) && i <= j < |es|
    ensures es[i].tick <= es[j].tick
  {
    if i < j {
      if j < |es| - 1 {
        SortedBetween(es[..|es| - 1], i, j);
      } else {
        SortedBetween(es[..|es| - 1], i, j - 1);
      }
    }
  }

  lemma {:induction false} LastTicksMember(es: seq<Entry>, key: Key)
    ensures key in LastTicks(es) <==> exists i :: 0 <= i < |es| && es[i].key == key
    ensures key in LastTicks(es) ==> Entry(LastTicks(es)[key], key) in es
  {
    if es != [] {
      var init, last := es[..|es| - 1], es[|es| - 1];
      LastTicksMember(init, key);
      assert es == init + [last];
    }
  }

  /** Dropping the oldest entry only loses its key, and only if the key has no later entry. */
  lemma {:induction false} LastTicksDropFirst(es: seq<Entry>, key: Key)
    requires es != []
    ensures key in LastTicks(es[1..]) ==> key in LastTicks(es) && LastTicks(es)[key] == LastTicks(es[1..])[key]
    ensures key in LastTicks(es) && key !in LastTicks(es[1..]) ==> key == es[0].key && LastTicks(es)[key] == es[0].tick
  {
    if |es| > 1 {
      var init := es[..|es| - 1];
      LastTicksDropFirst(init, key);
      assert es[1..][..|es| - 2] == init[1..] && es[1..][|es| - 2] == es[|es| - 1];
    } else {
      assert es[1..] == [] && es[..0] == [];
    }
  }

  lemma {:induction false} EntriesComplete(history: seq<Observation>, i: nat)
    requires i < |history| && history[i].key.Some?
    ensures Entry(history[i].tick, history[i].key.value) in Entries(history)
  {
    if i < |history| - 1 {
      EntriesComplete(history[..|history| - 1], i);
    }
  }

  lemma {:induction false} EntriesSound(history: seq<Observation>, e: Entry)
    requires e in Entries(history)
    ensures exists i :: 0 <= i < |history| && history[i].tick == e.tick && history[i].key == Some(e.key)
  {
    var n := |history| - 1;
    if e in Entries(history[..n]) {
      EntriesSound(history[..n], e);
      var i :| 0 <= i < n && history[..n][i].tick == e.tick && history[..n][i].key == Some(e.key);
      assert history[i] == history[..n][i];
    } else {
      assert history[n].tick == e.tick;
    }
  }

  lemma {:induction false} EntriesSorted(history: seq<Observation>)
    requires Nondecreasing(history)
    ensures Sorted(Entries(history))
    ensures Entries(history) != [] ==>
              history != [] && Entries(history)[|Entries(history)| - 1].tick <= history[|history| - 1].tick
  {
    if history != [] {
      var n := |history| - 1;
      EntriesSorted(history[..n]);
      var init := Entries(history[..n]);
      if history[n].key.Some? {
        assert Entries(history)[..|init|] == init;
      }
    }
  }

  lemma {:induction false} HeardInEntries(history: seq<Observation>, lookback: int, tick: int, key: Key)
    ensures WasHeard(history, lookback, tick, key) <==>
            exists e :: e in Entries(history) && e.key == key && 0 <= tick - e.tick <= lookback
  {
    if WasHeard(history, lookback, tick, key) {
      var i :| 0 <= i < |history| && history[i].key == Some(key) && 0 <= tick - history[i].tick <= lookback;
      EntriesComplete(history, i);
    }
    if e :| e in Entries(history) && e.key == key && 0 <= tick - e.tick <= lookback {
      EntriesSound(history, e);
    }
  }

  // ---------------------------------------------------------------- expiry

  /** The dict during expiry. Between two entries of one key at one tick it no longer matches the
      FIFO: it agrees with it where it has a key, and only has to have the keys still fresh. */
  ghost predicate Indexed(data: map<Key, int>, pending: seq<Entry>, tick: int, lookback: int) {
    && (forall k :: k in data ==> k in LastTicks(pending) && data[k] == LastTicks(pending)[k])
    && (forall k :: k in LastTicks(pending) && tick - LastTicks(pending)[k] <= lookback ==> k in data)
  }

  function Popped(data: map<Key, int>, oldest: Entry): map<Key, int> {
    if oldest.key in data && data[oldest.key] == oldest.tick then data - {oldest.key} else data
  }

  lemma {:induction false} PopKeepsIndexed(data: map<Key, int>, pending: seq<Entry>, tick: int, lookback: int)
    requires pending != [] && Indexed(data, pending, tick, lookback) && tick - pending[0].tick > lookback
    ensures Indexed(Popped(data, pending[0]), pending[1..], tick, lookback)
  {
    forall k
      ensures k in LastTicks(pending[1..]) ==>
                k in LastTicks(pending) && LastTicks(pending)[k] == LastTicks(pending[1..])[k]
      ensures k in LastTicks(pending) && k !in LastTicks(pending[1..]) ==>
                k == pending[0].key && LastTicks(pending)[k] == pending[0].tick
    {
      LastTicksDropFirst(pending, k);
    }
  }

  ghost predicate AllFresh(pending: seq<Entry>, tick: int, lookback: int) {
    forall i :: 0 <= i < |pending| ==> tick - pending[i].tick <= lookback
  }

  ghost predicate AllExpired(es: seq<Entry>, n: nat, tick: int, lookback: int)
    requires n <= |es|
  {
    forall i :: 0 <= i < n ==> tick - es[i].tick > lookback
  }

  lemma {:induction false} IndexedExactly(data: map<Key, int>, pending: seq<Entry>, tick: int, lookback: int)
    requires Indexed(data, pending, tick, lookback) && AllFresh(pending, tick, lookback)
    ensures data == LastTicks(pending)
    ensures forall k :: k in data ==> tick - data[k] <= lookback
  {
    forall k | k in LastTicks(pending)
      ensures tick - LastTicks(pending)[k] <= lookback
    {
      LastTicksMember(pending, k);
    }
    assert data.Keys == LastTicks(pending).Keys;
  }

  /** `pending` is what remains of `all` after dropping its first `n` entries, all expired. */
  ghost predicate Dropped(all: seq<Entry>, n: nat, pending: seq<Entry>, tick: int, lookback: int) {
    n <= |all| && pending == all[n..] && AllExpired(all, n, tick, lookback)
  }

  lemma {:induction false} DropNext(all: seq<Entry>, n: nat, pending: seq<Entry>, tick: int, lookback: int)
    requires Dropped(all, n, pending, tick, lookback) && pending != [] && tick - pending[0].tick > lookback
    ensures Dropped(all, n + 1, pending[1..], tick, lookback)
  {
  }

  /** In a sorted FIFO the loop may stop at the first entry that is still fresh. */
  lemma {:induction false} SortedFresh(es: seq<Entry>, cut: nat, tick: int, lookback: int)
    requires Sorted(es) && cut <= |es|
    requires cut == |es| || tick - es[cut].tick <= lookback
    ensures AllFresh(es[cut..], tick, lookback)
  {
    forall i | 0 <= i < |es[cut..]|
      ensures tick - es[cut..][i].tick <= lookback
    {
      SortedBetween(es, cut, cut + i);
    }
  }

  /** The FIFO holds the entries from `cut` on, which are all of those within the lookback at
      `tick` and only those; the dict is their index. */
  ghost predicate Recent(es: seq<Entry>, cut: nat, data: map<Key, int>, pending: seq<Entry>,
                         tick: int, lookback: int)
  {
    Dropped(es, cut, pending, tick, lookback) && AllFresh(pending, tick, lookback) && data == LastTicks(pending)
  }

  // ---------------------------------------------------------------- the window's state

  function LastTick(history: seq<Observation>): int {
    if history == [] then 0 else history[|history| - 1].tick
  }

  ghost predicate Tracks(history: seq<Observation>, lookback: int, started: Option<int>,
                         data: map<Key, int>, pending: seq<Entry>, cut: nat) {
    && Nondecreasing(history)
    && started == (if history == [] then None else Some(history[0].tick))
    && Recent(Entries(history), cut, data, pending, LastTick(history), lookback)
  }

  lemma {:induction false} NondecreasingGrows(past: seq<Observation>, now: Observation)
    requires Nondecreasing(past) && (past != [] ==> past[|past| - 1].tick <= now.tick)
    ensures Nondecreasing(past + [now])
  {
    var h := past + [now];
    assert h[..|past|] == past;
    if past != [] {
      assert h[|h| - 2] == past[|past| - 1];
    }
  }

  lemma {:induction false} EntriesGrow(past: seq<Observation>, now: Observation)
    ensures Entries(past + [now]) ==
            Entries(past) + (match now.key case None => [] case Some(k) => [Entry(now.tick, k)])
  {
    assert (past + [now])[..|past|] == past;
    Nil(Entries(past));
  }

  lemma {:induction false} LastTicksGrow(es: seq<Entry>, e: Entry)
    ensures LastTicks(es + [e]) == LastTicks(es)[e.key := e.tick]
  {
    assert (es + [e])[..|es|] == es;
  }

  lemma {:induction false} TracksOther(past: seq<Observation>, tick: int, lookback: int, started: Option<int>,
                    data: map<Key, int>, pending: seq<Entry>, cut: nat)
    requires Nondecreasing(past) && (past != [] ==> past[|past| - 1].tick <= tick)
    requires started == Some(if past == [] then tick else past[0].tick)
    requires Recent(Entries(past), cut, data, pending, tick, lookback)
    ensures Tracks(past + [Observation(None, tick)], lookback, started, data, pending, cut)
  {
    NondecreasingGrows(past, Observation(None, tick));
    EntriesGrow(past, Observation(None, tick));
    Nil(Entries(past));
  }

  lemma {:induction false} TracksKey(past: seq<Observation>, tick: int, lookback: int, started: Option<int>,
                  data: map<Key, int>, pending: seq<Entry>, cut: nat, key: Key)
    requires Nondecreasing(past) && (past != [] ==> past[|past| - 1].tick <= tick)
    requires started == Some(if past == [] then tick else past[0].tick)
    requires Recent(Entries(past), cut, data, pending, tick, lookback) && lookback >= 0
    ensures Tracks(past + [Observation(Some(key), tick)], lookback, started, data[key := tick],
                   pending + [Entry(tick, key)], cut)
  {
    NondecreasingGrows(past, Observation(Some(key), tick));
    EntriesGrow(past, Observation(Some(key), tick));
    RecentGrows(Entries(past), cut, data, pending, tick, lookback, Entry(tick, key));
  }

  lemma {:induction false} TailGrows<T>(all: seq<T>, n: nat, e: T)
    requires n <= |all|
    ensures (all + [e])[n..] == all[n..] + [e]
  {
  }

  lemma {:induction false} ExpiredGrows(all: seq<Entry>, n: nat, tick: int, lookback: int, e: Entry)
    requires n <= |all| && AllExpired(all, n, tick, lookback)
    ensures AllExpired(all + [e], n, tick, lookback)
  {
  }

  lemma {:induction false} FreshGrows(pending: seq<Entry>, tick: int, lookback: int, e: Entry)
    requires AllFresh(pending, tick, lookback) && e.tick == tick && lookback >= 0
    ensures AllFresh(pending + [e], tick, lookback)
  {
  }

  lemma {:induction false} RecentGrows(es: seq<Entry>, cut: nat, data: map<Key, int>, pending: seq<Entry>,
                                       tick: int, lookback: int, e: Entry)
    requires Recent(es, cut, data, pending, tick, lookback) && e.tick == tick && lookback >= 0
    ensures Recent(es + [e], cut, data[e.key := tick], pending + [e], tick, lookback)
  {
    LastTicksGrow(pending, e);
    TailGrows(es, cut, e);
    ExpiredGrows(es, cut, tick, lookback, e);
    FreshGrows(pending, tick, lookback, e);
  }

  lemma {:induction false} InDataIsHeard(past: seq<Observation>, tick: int, lookback: int, data: map<Key, int>,
                      pending: seq<Entry>, cut: nat, key: Key)
    requires Nondecreasing(past) && (past != [] ==> past[|past| - 1].tick <= tick)
    requires Recent(Entries(past), cut, data, pending, tick, lookback)
    ensures (key in data && 0 <= tick - data[key] <= lookback) <==> WasHeard(past, lookback, tick, key)
  {
    LastTicksMember(pending, key);
    HeardInEntries(past, lookback, tick, key);
    var es := Entries(past);
    if key in data {
      MostRecent(past, tick, lookback, data, pending, cut, key);
    } else if e :| e in es && e.key == key && 0 <= tick - e.tick <= lookback {
      FreshIsPending(es, cut, data, pending, tick, lookback, e);
    }
  }

  lemma {:induction false} FreshIsPending(es: seq<Entry>, cut: nat, data: map<Key, int>, pending: seq<Entry>,
                       tick: int, lookback: int, e: Entry)
    requires Recent(es, cut, data, pending, tick, lookback) && e in es && tick - e.tick <= lookback
    ensures e in pending && e.key in data
  {
    var i :| 0 <= i < |es| && es[i] == e;
    assert pending[i - cut] == e;
    LastTicksMember(pending, e.key);
  }

  lemma {:induction false} MostRecent(past: seq<Observation>, tick: int, lookback: int, data: map<Key, int>,
                   pending: seq<Entry>, cut: nat, key: Key)
    requires Nondecreasing(past) && (past != [] ==> past[|past| - 1].tick <= tick)
    requires Recent(Entries(past), cut, data, pending, tick, lookback)
    requires key in LastTicks(pending)
    ensures Entry(LastTicks(pending)[key], key) in Entries(past)
    ensures 0 <= tick - LastTicks(pending)[key] <= lookback
  {
    LastTicksMember(pending, key);
    var e := Entry(LastTicks(pending)[key], key);
    var i :| 0 <= i < |pending| && pending[i] == e;
    assert Entries(past)[cut + i] == e;
    EntryBefore(past, tick, e);
  }

  lemma {:induction false} EntryBefore(past: seq<Observation>, tick: int, e: Entry)
    requires Nondecreasing(past) && (past != [] ==> past[|past| - 1].tick <= tick) && e in Entries(past)
    ensures e.tick <= tick
  {
    var n := |past| - 1;
    if e in Entries(past[..n]) {
      EntryBefore(past[..n], tick, e);
    }
  }

  /** The loop over the BlockAck's window positions. */
  function SeenUpTo(data: map<Key, int>, lookback: int, tick: int, c: BlockAck.Control, n: nat): set<nat>
    requires c.ba.Window? && c.ta.Some?
  {
    if n == 0 then {}
    else
      var sequence := Sequence(c.ba.startSequence, n - 1);
      var key := Key(c.ra, c.ta.value, c.ba.tid, sequence);
      SeenUpTo(data, lookback, tick, c, n - 1) +
      (if key in data && 0 <= tick - data[key] <= lookback then {sequence} else {})
  }

  lemma {:induction false} SeenMember(data: map<Key, int>, lookback: int, tick: int, c: BlockAck.Control,
                                      n: nat, s: nat)
    requires c.ba.Window? && c.ta.Some?
    ensures s in SeenUpTo(data, lookback, tick, c, n) <==>
            exists d: nat :: d < n && s == Sequence(c.ba.startSequence, d) &&
                        var key := Key(c.ra, c.ta.value, c.ba.tid, s);
                        key in data && 0 <= tick - data[key] <= lookback
  {
    if n > 0 {
      SeenMember(data, lookback, tick, c, n - 1, s);
      assert Sequence(c.ba.startSequence, n - 1) == Sequence(c.ba.startSequence, n - 1);
    }
  }

  lemma {:induction false} SeenIsNaive(past: seq<Observation>, tick: int, lookback: int, data: map<Key, int>,
                    pending: seq<Entry>, cut: nat, c: BlockAck.Control)
    requires c.ba.Window? && c.ta.Some?
    requires Nondecreasing(past) && (past != [] ==> past[|past| - 1].tick <= tick)
    requires Recent(Entries(past), cut, data, pending, tick, lookback)
    ensures SeenUpTo(data, lookback, tick, c, c.ba.bitmapBits) == NaiveSeen(past, lookback, tick, c)
  {
    forall s: nat
      ensures s in SeenUpTo(data, lookback, tick, c, c.ba.bitmapBits) <==> s in NaiveSeen(past, lookback, tick, c)
    {
      SeenMember(data, lookback, tick, c, c.ba.bitmapBits, s);
      InDataIsHeard(past, tick, lookback, data, pending, cut, Key(c.ra, c.ta.value, c.ba.tid, s));
    }
  }

  // ---------------------------------------------------------------- the window

  class DeliveryWindow {
    const lookback: int
    var data: map<Key, int>
    var pending: seq<Entry>
    var started: Option<int>
    ghost var history: seq<Observation>
    ghost var cut: nat

    ghost predicate Valid()
      reads this
    {
      lookback >= 0 && Tracks(history, lookback, started, data, pending, cut)
    }

    constructor (lookback: int)
      requires lookback >= 0
      ensures Valid() && history == [] && this.lookback == lookback
    {
      this.lookback := lookback;
      data, pending, started, history, cut := map[], [], None, [], 0;
    }

    /** Past entries that can still matter at `tick`. */
    ghost predicate Pruned(tick: int)
      reads this
    {
      && Nondecreasing(history) && (history != [] ==> history[|history| - 1].tick <= tick)
      && Recent(Entries(history), cut, data, pending, tick, lookback)
    }

    /** The expiry loop at the head of observe. */
    method Expire(tick: int)
      requires Valid() && (history != [] ==> history[|history| - 1].tick <= tick)
      modifies this`data, this`pending, this`cut
      ensures Pruned(tick)
    {
      ghost var es := Entries(history);
      StartExpiry(history, lookback, data, pending, cut, tick);
      while pending != [] && tick - pending[0].tick > lookback
        invariant Dropped(es, cut, pending, tick, lookback) && Indexed(data, pending, tick, lookback)
        decreases |pending|
      {
        var oldest := pending[0];
        PopKeepsIndexed(data, pending, tick, lookback);
        DropNext(es, cut, pending, tick, lookback);
        pending := pending[1..];
        if oldest.key in data && data[oldest.key] == oldest.tick {
          data := data - {oldest.key};
        }
        cut := cut + 1;
      }
      EndExpiry(history, lookback, data, pending, cut, tick);
    }

    /** Which positions of the BlockAck's window were heard recently. */
    method Seen(c: BlockAck.Control, tick: int) returns (seen: set<nat>)
      requires c.ba.Window? && c.ta.Some? && Pruned(tick)
      ensures seen == NaiveSeen(history, lookback, tick, c)
    {
      seen := {};
      for displacement := 0 to c.ba.bitmapBits
        invariant seen == SeenUpTo(data, lookback, tick, c, displacement)
      {
        var sequence := Sequence(c.ba.startSequence, displacement);
        var key := Key(c.ra, c.ta.value, c.ba.tid, sequence);
        if key in data && 0 <= tick - data[key] <= lookback {
          seen := seen + {sequence};
        }
      }
      SeenIsNaive(history, tick, lookback, data, pending, cut, c);
    }

    /** Every answer is the naive one, and only entries within the lookback stay in memory. */
    method Observe(frame: Bytes, tick: int) returns (answer: Answer)
      requires Valid() && (history != [] ==> history[|history| - 1].tick <= tick)
      modifies this
      ensures Valid() && history == old(history) + [Observation(QosKey(frame), tick)]
      ensures answer == NaiveAnswer(old(history), lookback, QosKey(frame), BlockAck.ParseControl(frame), tick)
      ensures AllFresh(pending, tick, lookback)
    {
      Expire(tick);
      if started.None? {
        started := Some(tick);
      }
      var key, control := QosKey(frame), BlockAck.ParseControl(frame);
      WindowHasTransmitter(frame);
      answer := Answered(key, control, tick);
      Remember(key, tick);
    }

    method Remember(key: Option<Key>, tick: int)
      requires Pruned(tick) && lookback >= 0 && started == Some(if history == [] then tick else history[0].tick)
      modifies this`data, this`pending, this`history
      ensures Valid() && history == old(history) + [Observation(key, tick)]
      ensures AllFresh(pending, tick, lookback)
    {
      if key.Some? {
        TracksKey(history, tick, lookback, started, data, pending, cut, key.value);
        data := data[key.value := tick];
        pending := pending + [Entry(tick, key.value)];
      } else {
        TracksOther(history, tick, lookback, started, data, pending, cut);
      }
      history := history + [Observation(key, tick)];
    }

    /** What observe returns; the state is not touched. */
    method Answered(key: Option<Key>, control: Option<BlockAck.Control>, tick: int) returns (answer: Answer)
      requires Pruned(tick) && started == Some(if history == [] then tick else history[0].tick)
      ensures answer == NaiveAnswer(history, lookback, key, control, tick)
    {
      if key.Some? || !IsWindow(control) {
        return Nothing;
      }
      if tick - started.value < lookback {
        return WarmingUp;
      }
      var seen := Seen(control.value, tick);
      return Window((set s | s in control.value.ba.ackSequences), seen);
    }
  }

  lemma {:induction false} StartExpiry(history: seq<Observation>, lookback: int, data: map<Key, int>,
                                       pending: seq<Entry>, cut: nat, tick: int)
    requires Nondecreasing(history) && Recent(Entries(history), cut, data, pending, LastTick(history), lookback)
    requires history != [] ==> history[|history| - 1].tick <= tick
    ensures Dropped(Entries(history), cut, pending, tick, lookback) && Indexed(data, pending, tick, lookback)
  {
  }

  lemma {:induction false} EndExpiry(history: seq<Observation>, lookback: int, data: map<Key, int>, pending: seq<Entry>,
                  cut: nat, tick: int)
    requires Nondecreasing(history)
    requires Dropped(Entries(history), cut, pending, tick, lookback) && Indexed(data, pending, tick, lookback)
    requires pending == [] || tick - pending[0].tick <= lookback
    ensures Recent(Entries(history), cut, data, pending, tick, lookback)
  {
    EntriesSorted(history);
    SortedFresh(Entries(history), cut, tick, lookback);
    IndexedExactly(data, pending, tick, lookback);
  }

  // ---------------------------------------------------------------- from frames to answers

  /** A data frame from one station to another, with this TID and sequence number. */
  ghost predicate Sent(frame: Bytes, from: Bytes, to: Bytes, tid: nat, sequence: nat) {
    exists q :: ValidQos(q) && Keyed(q) && EncodeQos(q) == frame &&
                Key(from, to, tid, sequence) == Key(q.transmitter, q.receiver, q.tid, q.sequence)
  }

  datatype Heard = Heard(frame: Bytes, tick: int)

  function HistoryOf(frames: seq<Heard>): (h: seq<Observation>)
    ensures |h| == |frames|
    ensures forall i :: 0 <= i < |h| ==> h[i] == Observation(QosKey(frames[i].frame), frames[i].tick)
  {
    seq(|frames|, i requires 0 <= i < |frames| => Observation(QosKey(frames[i].frame), frames[i].tick))
  }

  /** Within the lookback a frame was received that sent this. */
  ghost predicate Received(frames: seq<Heard>, lookback: int, tick: int, from: Bytes, to: Bytes, tid: nat,
                           sequence: nat)
  {
    exists i :: 0 <= i < |frames| && 0 <= tick - frames[i].tick <= lookback &&
                Sent(frames[i].frame, from, to, tid, sequence)
  }

  lemma {:induction false} HeardIsReceived(frames: seq<Heard>, lookback: int, tick: int, key: Key)
    ensures WasHeard(HistoryOf(frames), lookback, tick, key) <==>
            Received(frames, lookback, tick, key.transmitter, key.receiver, key.tid, key.sequence)
  {
    var h := HistoryOf(frames);
    forall i | 0 <= i < |frames|
      ensures h[i].key == Some(key) <==>
              Sent(frames[i].frame, key.transmitter, key.receiver, key.tid, key.sequence)
    {
      KeyedExactly(frames[i].frame, key);
    }
    if WasHeard(h, lookback, tick, key) {
      var i :| 0 <= i < |h| && h[i].key == Some(key) && 0 <= tick - h[i].tick <= lookback;
      assert Sent(frames[i].frame, key.transmitter, key.receiver, key.tid, key.sequence);
    } else if i :| 0 <= i < |frames| && 0 <= tick - frames[i].tick <= lookback &&
                   Sent(frames[i].frame, key.transmitter, key.receiver, key.tid, key.sequence) {
      assert h[i].key == Some(key);
    }
  }

  lemma {:induction false} BlockAckIsNoData(f: BlockAck.BlockAckFrame)
    requires BlockAck.ValidFrame(f)
    ensures QosKey(BlockAck.Encode(f)) == None
  {
    var frame := BlockAck.Encode(f);
    assert frame[0] == 0x94;
    if QosKey(frame).Some? {
      QosSubtype(frame);
      assert false;
    }
  }

  /** A BlockAck that one station sends is answered by what the other sent it: of the acknowledged
      window those numbers count as seen that some data frame within the lookback carried, from the
      BlockAck's receiver to its transmitter. */
  lemma {:induction false} AnswerOfFrames(frames: seq<Heard>, lookback: int, f: BlockAck.BlockAckFrame, tick: int)
    requires BlockAck.ValidFrame(f) && frames != [] && tick - frames[0].tick >= lookback
    ensures var frame := BlockAck.Encode(f);
            var answer := NaiveAnswer(HistoryOf(frames), lookback, QosKey(frame), BlockAck.ParseControl(frame), tick);
            && answer.Window?
            && (forall s: nat :: s in answer.acked <==> exists d :: d in f.acked && s == BlockAck.SequenceAt(f, d))
            && (forall s: nat :: s in answer.seen <==>
                  InWindow(f, s) && Received(frames, lookback, tick, f.ra, f.ta, f.tid, s))
  {
    BlockAckIsNoData(f);
    BlockAck.BlockAckRoundTrip(f);
    var c := BlockAck.ParseControl(BlockAck.Encode(f)).value;
    forall s: nat
      ensures s in NaiveSeen(HistoryOf(frames), lookback, tick, c) <==>
              InWindow(f, s) && Received(frames, lookback, tick, f.ra, f.ta, f.tid, s)
    {
      SeenOfFrames(frames, lookback, f, c, tick, s);
    }
  }

  /** One of the positions that the BlockAck covers. */
  ghost predicate InWindow(f: BlockAck.BlockAckFrame, s: nat) {
    exists d: nat :: d < BlockAck.Positions(f.window) && s == BlockAck.SequenceAt(f, d)
  }

  lemma {:induction false} SeenOfFrames(frames: seq<Heard>, lookback: int, f: BlockAck.BlockAckFrame,
                                        c: BlockAck.Control, tick: int, s: nat)
    requires c.ba.Window? && c.ta == Some(f.ta) && c.ra == f.ra && c.ba.tid == f.tid
    requires c.ba.startSequence == f.start && c.ba.bitmapBits == BlockAck.Positions(f.window)
    ensures s in NaiveSeen(HistoryOf(frames), lookback, tick, c) <==>
            InWindow(f, s) && Received(frames, lookback, tick, f.ra, f.ta, f.tid, s)
  {
    HeardIsReceived(frames, lookback, tick, Key(f.ra, f.ta, f.tid, s));
    forall d: nat
      ensures Sequence(c.ba.startSequence, d) == BlockAck.SequenceAt(f, d)
    {
    }
    if InWindow(f, s) {
      var d: nat :| d < BlockAck.Positions(f.window) && s == BlockAck.SequenceAt(f, d);
      assert s == Sequence(c.ba.startSequence, d);
    }
    if s in NaiveSeen(HistoryOf(frames), lookback, tick, c) {
      var d :| 0 <= d < c.ba.bitmapBits && s == Sequence(c.ba.startSequence, d);
      assert s == BlockAck.SequenceAt(f, d);
    }
  }
}
