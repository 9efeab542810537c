/** The MCU command link (mt7921u.py, c/mt7921_mcu.c): a four-bit sequence number over an endpoint
    that also carries captured frames, status packets, unsolicited events and late replies. */
module McuLink {
  import opened Wire
  import opened RxDecode
  import RxWriter

  // ---------------------------------------------------------------- sequence numbers

  /** The number of the k-th command, counting from one. Zero is never issued. */
  function SeqOf(k: nat): (s: nat)
    requires k >= 1
    ensures 1 <= s <= 15
  {
    (k - 1) % 15 + 1
  }

  /** Two commands share a number exactly when a multiple of fifteen apart. */
  lemma {:induction false} SameNumber(j: nat, k: nat)
    requires 1 <= j <= k
    ensures SeqOf(j) == SeqOf(k) <==> (k - j) % 15 == 0
  {
    var a, b := (j - 1) / 15, (k - 1) / 15;
    assert k - j == 15 * (b - a) + ((k - 1) % 15 - (j - 1) % 15);
  }

  // ---------------------------------------------------------------- transfers

  /** One bulk read. A list of incoming ends where the deadline passes. */
  datatype Read = Transfer(data: Bytes) | TimedOut | Broken

  datatype Kind = Short | DroppedFrame | OtherPacket | StaleEvent | Reply

  function ReplyHeader(chip: Chip): nat {
    if chip.MT7921? then 36 else 44
  }

  function SeqOffset(chip: Chip): nat {
    if chip.MT7921? then 29 else 37
  }

  /** mcu_wait has its own frame test. Unlike the decoders it counts a raw packet type of 17 as
      another packet, and only C knows the connac3 software frame. */
  predicate TakenForFrame(host: Host, chip: Chip, rxd0: nat) {
    || PacketType(rxd0) == NORMAL
    || (PacketType(rxd0) == RX_EVENT && PacketFlag(rxd0) == NORMAL_MCU_FLAG)
    || (host.C? && chip.MT7925? && SoftwareFrame(rxd0))
  }

  /** C's wait and the chip's decoders disagree about what is a frame on raw packet type 17 alone;
      Python's also on the software frames that only C's wait knows. */
  lemma {:induction false} FrameTestsDiffer(chip: Chip, rxd0: nat)
    ensures IsFrame(chip, rxd0) && !TakenForFrame(C, chip, rxd0) <==> PacketType(rxd0) == 17
    ensures TakenForFrame(C, chip, rxd0) ==> IsFrame(chip, rxd0)
    ensures TakenForFrame(C, chip, rxd0) && !TakenForFrame(Python, chip, rxd0) <==>
            chip.MT7925? && PacketType(rxd0) in {15, 23, 31} && PacketFlag(rxd0) == 1
  {
  }

  function KindOf(host: Host, chip: Chip, data: Bytes, number: nat): Kind {
    if |data| < ReplyHeader(chip) then Short
    else
      var rxd0 := Le32(data, 0);
      if TakenForFrame(host, chip, rxd0) then DroppedFrame
      else if PacketType(rxd0) != RX_EVENT then OtherPacket
      else if data[SeqOffset(chip)] == number then Reply
      else StaleEvent
  }

  /** A transfer shaped as an MCU event. */
  predicate IsEvent(chip: Chip, data: Bytes) {
    |data| >= ReplyHeader(chip) && PacketType(Le32(data, 0)) == RX_EVENT && PacketFlag(Le32(data, 0)) != NORMAL_MCU_FLAG
  }

  /** What is a reply does not depend on the host. */
  lemma {:induction false} ReplyExactly(host: Host, chip: Chip, data: Bytes, number: nat)
    ensures KindOf(host, chip, data, number) == Reply <==> IsEvent(chip, data) && data[SeqOffset(chip)] == number
  {
  }

  /** The two hosts count a transfer differently exactly when it is an MT7925 software frame of
      another packet type: other to Python, a frame to C. */
  lemma {:induction false} KindsDiffer(chip: Chip, data: Bytes, number: nat)
    ensures KindOf(Python, chip, data, number) != KindOf(C, chip, data, number) <==>
            && chip.MT7925? && |data| >= ReplyHeader(chip)
            && PacketType(Le32(data, 0)) in {15, 23, 31} && PacketFlag(Le32(data, 0)) == 1
    ensures KindOf(Python, chip, data, number) != KindOf(C, chip, data, number) ==>
            KindOf(Python, chip, data, number) == OtherPacket && KindOf(C, chip, data, number) == DroppedFrame
  {
  }

  /** Nothing accepted as a reply is an 802.11 frame to the chip's decoders. */
  lemma {:induction false} ReplyIsNoFrame(host: Host, chip: Chip, data: Bytes, number: nat)
    requires KindOf(host, chip, data, number) == Reply
    ensures PythonView(chip, data) == NotAFrame && !CAccepts(chip, data)
  {
  }

  /** A transfer: the first word, octets up to the sequence number, the number, and the rest. */
  datatype Parts = Parts(length: nat, flag: nat, spare: nat, kind: nat, head: Bytes, number: Byte, rest: Bytes)

  ghost predicate ValidParts(chip: Chip, t: Parts) {
    && t.length < 0x1_0000 && t.flag < 16 && t.spare < 0x80 && t.kind < 32
    && 4 + |t.head| == (if chip.MT7921? then 29 else 37)
  }

  ghost function TransferOf(chip: Chip, t: Parts): Bytes
    requires ValidParts(chip, t)
  {
    RxWriter.TypeRead(t.length, t.flag, t.spare, t.kind);
    PutLe32(RxWriter.TypeWord(t.length, t.flag, t.spare, t.kind)) + (t.head + ([t.number] + t.rest))
  }

  lemma {:induction false} TransferRead(first: Bytes, head: Bytes, number: Byte, rest: Bytes)
    requires |first| == 4
    ensures var data := first + (head + ([number] + rest));
            Le32(data, 0) == Le32(first, 0) && data[4 + |head|] == number
  {
    var data := first + (head + ([number] + rest));
    assert data[0..4] == first[0..4];
    LeAgree(data, 0, first, 0, 4);
  }

  /** What each host takes a transfer for, from what it was made of. */
  lemma {:induction false} KindRead(host: Host, chip: Chip, t: Parts, wanted: nat)
    requires ValidParts(chip, t)
    ensures KindOf(host, chip, TransferOf(chip, t), wanted) ==
            if |t.rest| < 6 then Short
            else if t.kind == 2 || (t.kind == 7 && t.flag == 1) ||
                    (host.C? && chip.MT7925? && t.kind in {15, 23, 31} && t.flag == 1) then DroppedFrame
            else if t.kind != 7 then OtherPacket
            else if t.number == wanted then Reply
            else StaleEvent
  {
    var word := RxWriter.TypeWord(t.length, t.flag, t.spare, t.kind);
    RxWriter.TypeRead(t.length, t.flag, t.spare, t.kind);
    TransferRead(PutLe32(word), t.head, t.number, t.rest);
  }

  // ---------------------------------------------------------------- waiting

  predicate Ends(host: Host, chip: Chip, read: Read, number: nat) {
    match read
    case Transfer(data) => KindOf(host, chip, data, number) == Reply
    case TimedOut => host.Python?
    case Broken => true
  }

  /** The first read at or after `from` that ends the wait, or the end of the list. */
  function EndOfWait(host: Host, chip: Chip, incoming: seq<Read>, number: nat, from: nat): (n: nat)
    requires from <= |incoming|
    ensures from <= n <= |incoming|
    ensures n < |incoming| ==> Ends(host, chip, incoming[n], number)
    ensures forall i :: from <= i < n ==> !Ends(host, chip, incoming[i], number)
    decreases |incoming| - from
  {
    if from == |incoming| || Ends(host, chip, incoming[from], number) then from
    else EndOfWait(host, chip, incoming, number, from + 1)
  }

  predicate IsKind(host: Host, chip: Chip, read: Read, number: nat, kind: Kind) {
    read.Transfer? && KindOf(host, chip, read.data, number) == kind
  }

  /** How many of the first n incoming are of a kind. */
  function Count(host: Host, chip: Chip, incoming: seq<Read>, number: nat, n: nat, kind: Kind): nat
    requires n <= |incoming|
  {
    if n == 0 then 0
    else
      Count(host, chip, incoming, number, n - 1, kind) +
      (if IsKind(host, chip, incoming[n - 1], number, kind) then 1 else 0)
  }

  datatype Counters = Counters(frames: nat, stale: nat, other: nat)

  ghost predicate Counted(was: Counters, now: Counters, host: Host, chip: Chip, incoming: seq<Read>, number: nat,
                          n: nat)
    requires n <= |incoming|
  {
    && now.frames == was.frames + Count(host, chip, incoming, number, n, DroppedFrame)
    && now.stale == was.stale + Count(host, chip, incoming, number, n, StaleEvent)
    && now.other == was.other + Count(host, chip, incoming, number, n, OtherPacket)
  }

  lemma {:induction false} CountNext(was: Counters, now: Counters, host: Host, chip: Chip, incoming: seq<Read>,
                                     number: nat, n: nat)
    requires n < |incoming| && Counted(was, now, host, chip, incoming, number, n)
    ensures Counted(was, Tally(now, host, chip, incoming[n], number), host, chip, incoming, number, n + 1)
  {
  }

  function Tally(c: Counters, host: Host, chip: Chip, read: Read, number: nat): Counters {
    if !read.Transfer? then c
    else
      match KindOf(host, chip, read.data, number)
      case DroppedFrame => c.(frames := c.frames + 1)
      case StaleEvent => c.(stale := c.stale + 1)
      case OtherPacket => c.(other := c.other + 1)
      case _ => c
  }

  datatype Outcome = Replied(raw: Bytes) | NoResponse | NoMatch

  function OutcomeAt(incoming: seq<Read>, n: nat): Outcome {
    if n >= |incoming| then NoMatch
    else if incoming[n].Transfer? then Replied(incoming[n].data)
    else NoResponse
  }

  /** A reply longer than the buffer it should go to is refused. */
  function Fitted(outcome: Outcome, capacity: Option<nat>): Outcome {
    match outcome
    case Replied(raw) => if capacity.Some? && capacity.value < |raw| then NoMatch else outcome
    case other => other
  }

  /** The outcome of a whole wait; only C has a buffer to fit. */
  function WaitOutcome(host: Host, chip: Chip, incoming: seq<Read>, number: nat, capacity: Option<nat>): Outcome {
    var outcome := OutcomeAt(incoming, EndOfWait(host, chip, incoming, number, 0));
    if host.C? then Fitted(outcome, capacity) else outcome
  }

  class Mcu {
    const chip: Chip
    var msgSeq: nat
    var counters: Counters
    ghost var issued: nat

    ghost predicate Valid()
      reads this
    {
      msgSeq == if issued == 0 then 0 else SeqOf(issued)
    }

    constructor (chip: Chip)
      ensures Valid() && issued == 0 && this.chip == chip && counters == Counters(0, 0, 0)
    {
      this.chip, msgSeq, counters, issued := chip, 0, Counters(0, 0, 0), 0;
    }

    /** The same steps in Python and C. */
    method NextSeq() returns (s: nat)
      requires Valid()
      modifies this`msgSeq, this`issued
      ensures Valid() && issued == old(issued) + 1 && s == SeqOf(issued)
    {
      msgSeq := (msgSeq + 1) % 16;
      if msgSeq == 0 {
        msgSeq := (msgSeq + 1) % 16;
      }
      issued := issued + 1;
      s := msgSeq;
    }

    /** mcu_wait: a read that fails ends the wait. `discarded` is what the error text reports. */
    method WaitPython(incoming: seq<Read>, number: nat) returns (outcome: Outcome, discarded: nat)
      modifies this`counters
      ensures var n := EndOfWait(Python, chip, incoming, number, 0);
              && outcome == WaitOutcome(Python, chip, incoming, number, None)
              && Counted(old(counters), counters, Python, chip, incoming, number, n)
      ensures discarded == (counters.frames - old(counters.frames)) + (counters.stale - old(counters.stale))
                           + (counters.other - old(counters.other))
    {
      discarded := 0;
      var n := 0;
      while n < |incoming|
        invariant n <= |incoming|
        invariant EndOfWait(Python, chip, incoming, number, 0) == EndOfWait(Python, chip, incoming, number, n)
        invariant Counted(old(counters), counters, Python, chip, incoming, number, n)
        invariant discarded == (counters.frames - old(counters.frames)) + (counters.stale - old(counters.stale))
                               + (counters.other - old(counters.other))
      {
        CountNext(old(counters), counters, Python, chip, incoming, number, n);
        if !incoming[n].Transfer? {
          return NoResponse, discarded;
        }
        var raw := incoming[n].data;
        n := n + 1;
        if |raw| < ReplyHeader(chip) {
          continue;
        }
        var rxd0 := Le32(raw, 0);
        var isFrame := TakenForFrame(Python, chip, rxd0);
        if isFrame || PacketType(rxd0) != RX_EVENT {
          discarded := discarded + 1;
          if isFrame {
            counters := counters.(frames := counters.frames + 1);
          } else {
            counters := counters.(other := counters.other + 1);
          }
          continue;
        }
        if raw[SeqOffset(chip)] == number {
          return Replied(raw), discarded;
        }
        discarded := discarded + 1;
        counters := counters.(stale := counters.stale + 1);
      }
      outcome := NoMatch;
    }

    /** mt7921_mcu_wait: a timeout is retried, and a reply longer than the caller's buffer is refused. */
    method WaitC(incoming: seq<Read>, number: nat, capacity: Option<nat>) returns (outcome: Outcome)
      modifies this`counters
      ensures var n := EndOfWait(C, chip, incoming, number, 0);
              && Counted(old(counters), counters, C, chip, incoming, number, n)
              && outcome == WaitOutcome(C, chip, incoming, number, capacity)
    {
      var n := 0;
      while n < |incoming|
        invariant n <= |incoming| && EndOfWait(C, chip, incoming, number, 0) == EndOfWait(C, chip, incoming, number, n)
        invariant Counted(old(counters), counters, C, chip, incoming, number, n)
      {
        CountNext(old(counters), counters, C, chip, incoming, number, n);
        var read := incoming[n];
        if read.Broken? {
          return NoResponse;
        }
        n := n + 1;
        if read.TimedOut? || |read.data| < ReplyHeader(chip) {
          continue;
        }
        var rxd0 := Le32(read.data, 0);
        var isFrame := TakenForFrame(C, chip, rxd0);
        if isFrame || PacketType(rxd0) != RX_EVENT {
          if isFrame {
            counters := counters.(frames := counters.frames + 1);
          } else {
            counters := counters.(other := counters.other + 1);
          }
          continue;
        }
        if read.data[SeqOffset(chip)] == number {
          if capacity.Some? && capacity.value < |read.data| {
            return NoMatch;
          }
          return Replied(read.data);
        }
        counters := counters.(stale := counters.stale + 1);
      }
      outcome := NoMatch;
    }
  }

  /** Python never reads past where C stops, and both stop at the same read if and only if no read
      before that timed out. */
  lemma {:induction false} EndsAgree(chip: Chip, incoming: seq<Read>, number: nat, from: nat)
    requires from <= |incoming|
    ensures var m := EndOfWait(C, chip, incoming, number, from);
            var n := EndOfWait(Python, chip, incoming, number, from);
            && n <= m
            && (n == m <==> forall i :: from <= i < m ==> !incoming[i].TimedOut?)
            && (n < m ==> incoming[n].TimedOut?)
    decreases |incoming| - from
  {
    if from < |incoming| && !Ends(C, chip, incoming[from], number) && !incoming[from].TimedOut? {
      ReplyExactly(Python, chip, incoming[from].data, number);
      ReplyExactly(C, chip, incoming[from].data, number);
      EndsAgree(chip, incoming, number, from + 1);
    } else if from < |incoming| && incoming[from].Transfer? {
      ReplyExactly(Python, chip, incoming[from].data, number);
      ReplyExactly(C, chip, incoming[from].data, number);
    }
  }

  /** When both hosts come to the same: C's wait meets no timeout before its end and a reply there
      fits its buffer, or it meets one, where Python gives up, and then ends at a broken read. */
  predicate SameWait(chip: Chip, incoming: seq<Read>, number: nat, capacity: Option<nat>) {
    var m := EndOfWait(C, chip, incoming, number, 0);
    if forall i :: 0 <= i < m ==> !incoming[i].TimedOut? then
      m < |incoming| && incoming[m].Transfer? && capacity.Some? ==> |incoming[m].data| <= capacity.value
    else
      m < |incoming| && incoming[m].Broken?
  }

  /** For any reads at all, timeouts, failures and reply buffers included, the two hosts come to the
      same outcome if and only if SameWait holds. */
  lemma {:induction false} HostsAgree(chip: Chip, incoming: seq<Read>, number: nat, capacity: Option<nat>)
    ensures WaitOutcome(Python, chip, incoming, number, None) == WaitOutcome(C, chip, incoming, number, capacity) <==>
            SameWait(chip, incoming, number, capacity)
  {
    EndsAgree(chip, incoming, number, 0);
  }

  // ---------------------------------------------------------------- late replies

  /** A transfer and the command it answers, if any. */
  datatype Sent = Sent(data: Bytes, answers: Option<nat>)

  /** During command k the device may deliver anything that is no event, unsolicited events with
      number zero, and replies to commands issued so far, each with its command's number. */
  predicate Truthful(chip: Chip, s: Sent, k: nat) {
    IsEvent(chip, s.data) ==>
      match s.answers
      case None => s.data[SeqOffset(chip)] == 0
      case Some(j) => 1 <= j <= k && s.data[SeqOffset(chip)] == SeqOf(j)
  }

  /** The exact rule: during command k a truthful event is taken for the reply if and only if it
      answers k itself or a command a multiple of fifteen before it. */
  lemma {:induction false} TakenExactly(host: Host, chip: Chip, s: Sent, k: nat)
    requires k >= 1 && Truthful(chip, s, k) && IsEvent(chip, s.data)
    ensures KindOf(host, chip, s.data, SeqOf(k)) == Reply <==>
            s.answers.Some? && (k - s.answers.value) % 15 == 0
  {
    ReplyExactly(host, chip, s.data, SeqOf(k));
    if s.answers.Some? {
      SameNumber(s.answers.value, k);
    }
  }

  /** Not a reply to an earlier command that is a multiple of fifteen back. */
  predicate Harmless(chip: Chip, s: Sent, k: nat) {
    IsEvent(chip, s.data) && s.answers.Some? && s.answers.value < k ==> (k - s.answers.value) % 15 != 0
  }

  /** In particular no reply from the fourteen commands before is harmful. */
  lemma {:induction false} RecentIsHarmless(chip: Chip, s: Sent, k: nat)
    requires s.answers.Some? ==> s.answers.value <= k <= s.answers.value + 14
    ensures Harmless(chip, s, k)
  {
  }

  /** What is accepted answers the current command exactly when it is harmless. */
  lemma {:induction false} AcceptedIsCurrent(host: Host, chip: Chip, s: Sent, k: nat)
    requires k >= 1 && Truthful(chip, s, k) && KindOf(host, chip, s.data, SeqOf(k)) == Reply
    ensures s.answers == Some(k) <==> Harmless(chip, s, k)
  {
    ReplyExactly(host, chip, s.data, SeqOf(k));
    TakenExactly(host, chip, s, k);
  }

  // ---------------------------------------------------------------- sessions

  /** What one read of a session brings. */
  datatype Arrival = Arrived(sent: Sent) | Missed | Lost

  /** A command, whether its sender waits (firmware chunks do not), the reply buffer it passes in C if
      any, and what its wait then reads. */
  datatype Command = Command(waits: bool, capacity: Option<nat>, arrivals: seq<Arrival>)

  function ReadOf(a: Arrival): Read {
    match a
    case Arrived(s) => Transfer(s.data)
    case Missed => TimedOut
    case Lost => Broken
  }

  function Reads(arrivals: seq<Arrival>): (r: seq<Read>)
    ensures |r| == |arrivals| && forall i :: 0 <= i < |r| ==> r[i] == ReadOf(arrivals[i])
  {
    seq(|arrivals|, i requires 0 <= i < |arrivals| => ReadOf(arrivals[i]))
  }

  ghost predicate Delivers(chip: Chip, c: Command, k: nat) {
    forall i :: 0 <= i < |c.arrivals| && c.arrivals[i].Arrived? ==>
      Truthful(chip, c.arrivals[i].sent, k) && Harmless(chip, c.arrivals[i].sent, k)
  }

  /** Whether the caller has room: only C passes a buffer. */
  predicate HasRoom(host: Host, c: Command, raw: Bytes) {
    host.Python? || c.capacity.None? || |raw| <= c.capacity.value
  }

  /** What the wait of command k must come to: the first arrival that is a reply, unless a failed read
      comes first or the reply does not fit. */
  function Expected(host: Host, chip: Chip, c: Command, k: nat): Option<Sent>
    requires k >= 1
  {
    var n := EndOfWait(host, chip, Reads(c.arrivals), SeqOf(k), 0);
    if !c.waits || n == |c.arrivals| || !c.arrivals[n].Arrived? || !HasRoom(host, c, c.arrivals[n].sent.data) then None
    else Some(c.arrivals[n].sent)
  }

  /** What was taken is what the wait must come to, and answers its own command. */
  ghost predicate Accepted(host: Host, chip: Chip, c: Command, k: nat, taken: Option<Sent>)
    requires k >= 1
  {
    && taken == Expected(host, chip, c, k)
    && (taken.Some? ==> Arrived(taken.value) in c.arrivals && taken.value.answers == Some(k))
  }

  /** Whole sessions, on either host, with timeouts and failures: command k carries number
      ((k-1) mod 15) + 1 whether or not it waits, and what it accepts, if anything, answers command k. */
  method Session(host: Host, chip: Chip, commands: seq<Command>)
    returns (numbers: seq<nat>, accepted: seq<Option<Sent>>)
    requires forall i :: 0 <= i < |commands| ==> Delivers(chip, commands[i], i + 1)
    ensures |numbers| == |commands| && forall i :: 0 <= i < |commands| ==> numbers[i] == i % 15 + 1
    ensures |accepted| == |commands|
    ensures forall i :: 0 <= i < |commands| ==> Accepted(host, chip, commands[i], i + 1, accepted[i])
  {
    var mcu := new Mcu(chip);
    numbers, accepted := [], [];
    for i := 0 to |commands|
      invariant mcu.Valid() && fresh(mcu) && mcu.chip == chip && mcu.issued == i
      invariant |numbers| == i && forall k :: 0 <= k < i ==> numbers[k] == k % 15 + 1
      invariant |accepted| == i
      invariant forall k :: 0 <= k < i ==> Accepted(host, chip, commands[k], k + 1, accepted[k])
    {
      var s := mcu.NextSeq();
      numbers := numbers + [s];
      var taken := Serve(mcu, host, commands[i], i + 1);
      accepted := accepted + [taken];
    }
  }

  /** A command that does not wait takes nothing. */
  method Serve(mcu: Mcu, host: Host, c: Command, k: nat) returns (taken: Option<Sent>)
    requires mcu.Valid() && mcu.issued == k >= 1 && Delivers(mcu.chip, c, k)
    modifies mcu`counters
    ensures Accepted(host, mcu.chip, c, k, taken)
  {
    if !c.waits {
      return None;
    }
    var outcome;
    outcome, taken := AcceptFrom(mcu, host, c, k);
  }

  /** One wait, and the arrival its reply is. */
  method AcceptFrom(mcu: Mcu, host: Host, c: Command, k: nat) returns (outcome: Outcome, taken: Option<Sent>)
    requires mcu.Valid() && mcu.issued == k >= 1 && c.waits && Delivers(mcu.chip, c, k)
    modifies mcu`counters
    ensures outcome.Replied? <==> taken.Some?
    ensures taken.Some? ==> outcome.raw == taken.value.data
    ensures Accepted(host, mcu.chip, c, k, taken)
  {
    var incoming := Reads(c.arrivals);
    if host.Python? {
      var discarded;
      outcome, discarded := mcu.WaitPython(incoming, SeqOf(k));
    } else {
      outcome := mcu.WaitC(incoming, SeqOf(k), c.capacity);
    }
    var n := EndOfWait(host, mcu.chip, incoming, SeqOf(k), 0);
    taken := None;
    if outcome.Replied? {
      AcceptedIsCurrent(host, mcu.chip, c.arrivals[n].sent, k);
      taken := Some(c.arrivals[n].sent);
    }
  }
}
