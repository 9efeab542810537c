/** Control frames, in particular the single-TID compressed BlockAck (research/control_frames.py),
    against an encoder of the frame of IEEE 802.11-2020 section 9.3.1.8. */
module BlockAck {
  import opened Wire

  const SEQUENCE_SPACE: nat := 4096

  /** What the BlockAck-specific part of a control frame amounted to. */
  datatype BaPart =
    | NotBlockAck
    | ShortTa
    | ShortBaControl
    | OtherBaType(baType: nat, ackPolicy: nat)
    | ShortSsc(ackPolicy: nat)
    | Request(ackPolicy: nat, tid: nat, startSequence: nat)
    | UnknownBitmapSize(ackPolicy: nat, tid: nat, startSequence: nat)
    | ShortBitmap(ackPolicy: nat, tid: nat, startSequence: nat)
    | Window(ackPolicy: nat, tid: nat, startSequence: nat, bitmapBits: nat,
             acknowledged: nat, ackSequences: seq<nat>, zeroPositions: int)

  datatype Control = Control(subtype: nat, durationId: nat, ra: Bytes, ta: Option<Bytes>, ba: BaPart)

  // ---------------------------------------------------------------- integers as bit sets

  predicate BitOf(v: nat, k: nat) {
    if k == 0 then v % 2 == 1 else BitOf(v / 2, k - 1)
  }

  function BitCount(v: nat): nat {
    if v == 0 then 0 else v % 2 + BitCount(v / 2)
  }

  function BitLength(v: nat): nat {
    if v == 0 then 0 else 1 + BitLength(v / 2)
  }

  /** How many of the lowest `n` bits are set, counted one position at a time. */
  function SetBelow(v: nat, n: nat): nat {
    if n == 0 then 0 else SetBelow(v, n - 1) + (if BitOf(v, n - 1) then 1 else 0)
  }

  function ClearBelow(v: nat, n: nat): nat {
    if n == 0 then 0 else ClearBelow(v, n - 1) + (if BitOf(v, n - 1) then 0 else 1)
  }

  lemma {:induction false} SetBelowShift(v: nat, n: nat)
    ensures SetBelow(v, n + 1) == v % 2 + SetBelow(v / 2, n)
  {
    if n > 0 {
      SetBelowShift(v, n - 1);
    }
  }

  lemma {:induction false} BitCountIsSetBelow(v: nat, n: nat)
    requires v < Pow2(n)
    ensures BitCount(v) == SetBelow(v, n)
  {
    if n > 0 {
      SetBelowShift(v, n - 1);
      BitCountIsSetBelow(v / 2, n - 1);
    }
  }

  lemma {:induction false} BitLengthBound(v: nat)
    ensures v < Pow2(BitLength(v))
    ensures v > 0 ==> BitOf(v, BitLength(v) - 1)
  {
    if v > 0 {
      BitLengthBound(v / 2);
    }
  }

  lemma {:induction false} SetPlusClear(v: nat, n: nat)
    ensures SetBelow(v, n) + ClearBelow(v, n) == n
  {
    if n > 0 {
      SetPlusClear(v, n - 1);
    }
  }

  /** bit_length() - bit_count() is the number of clear bits below the highest set bit. */
  lemma {:induction false} ZeroPositions(v: nat)
    ensures BitLength(v) - BitCount(v) == ClearBelow(v, BitLength(v))
    ensures v > 0 ==> BitOf(v, BitLength(v) - 1)
    ensures v < Pow2(BitLength(v))
  {
    BitLengthBound(v);
    BitCountIsSetBelow(v, BitLength(v));
    SetPlusClear(v, BitLength(v));
  }

  // ---------------------------------------------------------------- decoder

  /** The acknowledged sequence numbers, in window order. */
  function AckSequences(start: nat, bitmap: nat, bits: nat): seq<nat> {
    if bits == 0 then []
    else
      AckSequences(start, bitmap, bits - 1) +
      (if BitOf(bitmap, bits - 1) then [(start + (bits - 1)) % SEQUENCE_SPACE] else [])
  }

  /** Octets of bitmap for each selector the decoder handles. */
  function BitmapSize(selector: nat): Option<nat> {
    if selector == 0 then Some(8)
    else if selector == 4 then Some(32)
    else if selector == 8 then Some(64)
    else if selector == 10 then Some(128)
    else None
  }

  function ParseBa(frame: Bytes, subtype: nat): BaPart
    requires |frame| >= 16
  {
    if |frame| < 18 then ShortBaControl
    else
      var control := Le16(frame, 16);
      var baType, ackPolicy := Field(control, 2, 16), control % 2;
      if baType != 2 then OtherBaType(baType, ackPolicy)
      else if |frame| < 20 then ShortSsc(ackPolicy)
      else
        var ssc := Le16(frame, 18);
        var tid, start := control / 4096, ssc / 16;
        if subtype == 8 then Request(ackPolicy, tid, start)
        else
          match BitmapSize(ssc % 16)
          case None => UnknownBitmapSize(ackPolicy, tid, start)
          case Some(size) =>
            if |frame| < 20 + size then ShortBitmap(ackPolicy, tid, start)
            else
              var bitmap := Le(frame, 20, size);
              Window(ackPolicy, tid, start, 8 * size, BitCount(bitmap),
                     AckSequences(start, bitmap, 8 * size), BitLength(bitmap) - BitCount(bitmap))
  }

  function ParseControl(frame: Bytes): Option<Control> {
    if |frame| < 10 then None
    else
      var fc := Le16(frame, 0);
      if Field(fc, 4, 4) != 1 then None
      else
        var subtype, duration, ra := Field(fc, 16, 16), Le16(frame, 2), frame[4..10];
        if subtype !in {8, 9, 11} then Some(Control(subtype, duration, ra, None, NotBlockAck))
        else if |frame| < 16 then Some(Control(subtype, duration, ra, None, ShortTa))
        else if subtype == 11 then Some(Control(subtype, duration, ra, Some(frame[10..16]), NotBlockAck))
        else Some(Control(subtype, duration, ra, Some(frame[10..16]), ParseBa(frame, subtype)))
  }

  // ---------------------------------------------------------------- what the list means

  lemma {:induction false} WindowInjective(start: nat, d: nat, e: nat)
    requires d < e < SEQUENCE_SPACE
    ensures (start + d) % SEQUENCE_SPACE != (start + e) % SEQUENCE_SPACE
  {
  }

  lemma {:induction false} AckListed(start: nat, bitmap: nat, bits: nat, d: nat)
    requires d < bits && BitOf(bitmap, d)
    ensures (start + d) % SEQUENCE_SPACE in AckSequences(start, bitmap, bits)
  {
    if d < bits - 1 {
      AckListed(start, bitmap, bits - 1, d);
    }
  }

  lemma {:induction false} AckPosition(start: nat, bitmap: nat, bits: nat, s: nat) returns (d: nat)
    requires s in AckSequences(start, bitmap, bits)
    ensures d < bits && BitOf(bitmap, d) && s == (start + d) % SEQUENCE_SPACE
  {
    if bits > 0 {
      d := bits - 1;
      if !(BitOf(bitmap, d) && s == (start + d) % SEQUENCE_SPACE) {
        d := AckPosition(start, bitmap, bits - 1, s);
      }
    }
  }

  /** Position d of the window is set, and its sequence number is s. */
  predicate AckedAt(start: nat, bitmap: nat, d: nat, s: nat) {
    BitOf(bitmap, d) && s == (start + d) % SEQUENCE_SPACE
  }

  /** A sequence number is listed exactly if its window position is set, across the wrap. */
  lemma {:induction false} AckMembers(start: nat, bitmap: nat, bits: nat, s: nat)
    ensures s in AckSequences(start, bitmap, bits) <==> exists d: nat :: d < bits && AckedAt(start, bitmap, d, s)
  {
    if s in AckSequences(start, bitmap, bits) {
      var d := AckPosition(start, bitmap, bits, s);
      assert AckedAt(start, bitmap, d, s);
    } else if d: nat :| d < bits && AckedAt(start, bitmap, d, s) {
      AckListed(start, bitmap, bits, d);
      assert false;
    }
  }

  /** No window of up to 4096 positions lists a number twice, and the list is as long as the
      number of set positions. */
  lemma {:induction false} AckDistinct(start: nat, bitmap: nat, bits: nat)
    requires bits <= SEQUENCE_SPACE
    ensures var acks := AckSequences(start, bitmap, bits);
            |acks| == SetBelow(bitmap, bits) && forall i, j :: 0 <= i < j < |acks| ==> acks[i] != acks[j]
  {
    if bits > 0 {
      AckDistinct(start, bitmap, bits - 1);
      var init, last := AckSequences(start, bitmap, bits - 1), bits - 1;
      if BitOf(bitmap, last) {
        var s := (start + last) % SEQUENCE_SPACE;
        if s in init {
          var d := AckPosition(start, bitmap, last, s);
          WindowInjective(start, d, last);
        }
        assert forall i :: 0 <= i < |init| ==> init[i] in init;
      }
    }
  }

  // ---------------------------------------------------------------- encoder

  /** Bit `k` of the result says whether position `lo + k` was acknowledged. */
  function BitmapOf(acked: set<nat>, lo: nat, n: nat): nat
    decreases n
  {
    if n == 0 then 0 else (if lo in acked then 1 else 0) + 2 * BitmapOf(acked, lo + 1, n - 1)
  }

  lemma {:induction false} BitmapBits(acked: set<nat>, lo: nat, n: nat, k: nat)
    requires k < n
    ensures BitOf(BitmapOf(acked, lo, n), k) <==> lo + k in acked
    decreases n
  {
    var rest := BitmapOf(acked, lo + 1, n - 1);
    assert BitmapOf(acked, lo, n) / 2 == rest;
    if k > 0 {
      BitmapBits(acked, lo + 1, n - 1, k - 1);
    }
  }

  lemma {:induction false} BitmapBound(acked: set<nat>, lo: nat, n: nat)
    ensures BitmapOf(acked, lo, n) < Pow2(n)
    decreases n
  {
    if n > 0 {
      BitmapBound(acked, lo + 1, n - 1);
    }
  }

  lemma {:induction false} Pow256IsPow2(size: nat)
    ensures Pow256(size) == Pow2(8 * size)
  {
    if size > 0 {
      Pow256IsPow2(size - 1);
      var n := 8 * size;
      assert Pow2(n) == 2 * Pow2(n - 1) == 4 * Pow2(n - 2) == 8 * Pow2(n - 3) == 16 * Pow2(n - 4);
      assert Pow2(n - 4) == 2 * Pow2(n - 5) == 4 * Pow2(n - 6) == 8 * Pow2(n - 7) == 16 * Pow2(n - 8);
    }
  }

  /** The window sizes of the decoder, by positions. */
  datatype WindowSize = W64 | W256 | W512 | W1024

  function Positions(w: WindowSize): nat {
    match w
    case W64 => 64
    case W256 => 256
    case W512 => 512
    case W1024 => 1024
  }

  /** The fragment number that announces the size. */
  function Selector(w: WindowSize): nat {
    match w
    case W64 => 0
    case W256 => 4
    case W512 => 8
    case W1024 => 10
  }

  lemma {:induction false} SelectedSize(w: WindowSize)
    ensures BitmapSize(Selector(w)).Some? && 8 * BitmapSize(Selector(w)).value == Positions(w)
  {
  }

  /** One BlockAck frame. `flags` is the second frame-control octet, `reserved` the BA Control bits
      between the type and the TID, `trailer` whatever follows the bitmap. */
  datatype BlockAckFrame = BlockAckFrame(flags: Byte, duration: nat, ra: Bytes, ta: Bytes, ackPolicy: nat,
                                         reserved: nat, tid: nat, start: nat, window: WindowSize,
                                         acked: set<nat>, trailer: Bytes)

  ghost predicate ValidFrame(f: BlockAckFrame) {
    && f.duration < 65536 && |f.ra| == 6 && |f.ta| == 6 && f.ackPolicy < 2 && f.reserved < 128
    && f.tid < 16 && f.start < 4096 && forall d :: d in f.acked ==> d < Positions(f.window)
  }

  function BaControl(f: BlockAckFrame): nat {
    f.ackPolicy + 2 * (2 + 16 * (f.reserved + 128 * f.tid))
  }

  function Header(f: BlockAckFrame): (h: Bytes)
    requires ValidFrame(f)
    ensures |h| == 20
  {
    [0x94, f.flags] + PutLe16(f.duration) + f.ra + f.ta + PutLe16(BaControl(f)) +
    PutLe16(Selector(f.window) + 16 * f.start)
  }

  function Encode(f: BlockAckFrame): Bytes
    requires ValidFrame(f)
  {
    Header(f) + PutLe(BitmapOf(f.acked, 0, Positions(f.window)), Positions(f.window) / 8) + f.trailer
  }

  lemma {:induction false} BaControlFields(f: BlockAckFrame)
    requires ValidFrame(f)
    ensures var c := BaControl(f);
            c < 65536 && c % 2 == f.ackPolicy && Field(c, 2, 16) == 2 && c / 4096 == f.tid
  {
    Digit(f.ackPolicy, 2 + 16 * (f.reserved + 128 * f.tid), 2);
    Digit(2, f.reserved + 128 * f.tid, 16);
    Digit(f.ackPolicy + 4 + 32 * f.reserved, f.tid, 4096);
  }

  lemma {:induction false} HeaderFields(f: BlockAckFrame, frame: Bytes)
    requires ValidFrame(f) && |frame| >= 20 && frame[..20] == Header(f)
    ensures frame[0] == 0x94 && frame[1] == f.flags && Le16(frame, 2) == f.duration
    ensures frame[4..10] == f.ra && frame[10..16] == f.ta
    ensures Le16(frame, 16) == BaControl(f) && Le16(frame, 18) == Selector(f.window) + 16 * f.start
  {
    var h := Header(f);
    assert frame[0] == h[0] && frame[1] == h[1] && frame[2] == h[2] && frame[3] == h[3];
    assert frame[4..10] == h[4..10] == f.ra && frame[10..16] == h[10..16] == f.ta;
    assert frame[16] == h[16] && frame[17] == h[17] && frame[18] == h[18] && frame[19] == h[19];
    assert h[2..4] == PutLe16(f.duration) && h[16..18] == PutLe16(BaControl(f));
    assert h[18..20] == PutLe16(Selector(f.window) + 16 * f.start);
    assert h[2] == h[2..4][0] && h[3] == h[2..4][1] && h[16] == h[16..18][0] && h[17] == h[16..18][1];
    assert h[18] == h[18..20][0] && h[19] == h[18..20][1];
  }

  lemma {:induction false} BitmapOctets(f: BlockAckFrame)
    requires ValidFrame(f)
    ensures var size := Positions(f.window) / 8;
            |Encode(f)| >= 20 + size && Le(Encode(f), 20, size) == BitmapOf(f.acked, 0, Positions(f.window))
  {
    var size := Positions(f.window) / 8;
    var v := BitmapOf(f.acked, 0, 8 * size);
    BitmapBound(f.acked, 0, 8 * size);
    Pow256IsPow2(size);
    LePut(v, size);
    assert Encode(f)[20..20 + size] == PutLe(v, size)[0..size];
    LeAgree(Encode(f), 20, PutLe(v, size), 0, size);
  }

  lemma {:induction false} WindowRead(frame: Bytes, control: nat, ssc: nat, size: nat, v: nat)
    requires |frame| >= 20 + size && Le16(frame, 16) == control && Le16(frame, 18) == ssc && Field(control, 2, 16) == 2
    requires BitmapSize(ssc % 16) == Some(size) && Le(frame, 20, size) == v
    ensures ParseBa(frame, 9) == Window(control % 2, control / 4096, ssc / 16, 8 * size, BitCount(v),
                                        AckSequences(ssc / 16, v, 8 * size), BitLength(v) - BitCount(v))
  {
  }

  lemma {:induction false} ParsesAsWindow(f: BlockAckFrame)
    requires ValidFrame(f)
    ensures var bits := Positions(f.window);
            var v := BitmapOf(f.acked, 0, bits);
            ParseControl(Encode(f)) ==
            Some(Control(9, f.duration, f.ra, Some(f.ta),
                         Window(f.ackPolicy, f.tid, f.start, bits, BitCount(v), AckSequences(f.start, v, bits),
                                BitLength(v) - BitCount(v))))
  {
    var frame := Encode(f);
    assert frame[..20] == Header(f);
    HeaderFields(f, frame);
    BaControlFields(f);
    SelectedSize(f.window);
    Digit(Selector(f.window), f.start, 16);
    FrameControl(f.flags);
    BitmapOctets(f);
    WindowRead(frame, BaControl(f), Selector(f.window) + 16 * f.start, Positions(f.window) / 8,
               BitmapOf(f.acked, 0, Positions(f.window)));
  }

  function SequenceAt(f: BlockAckFrame, d: nat): nat {
    (f.start + d) % 4096
  }

  /** The list holds exactly the acknowledged sequence numbers, each once. */
  ghost predicate ListsOnce(acks: seq<nat>, f: BlockAckFrame) {
    && (forall s: nat :: s in acks <==> exists d :: d in f.acked && s == SequenceAt(f, d))
    && (forall i, j :: 0 <= i < j < |acks| ==> acks[i] != acks[j])
  }

  /** Decoding a BlockAck gives back the addresses, the TID, the window, and exactly the set of
      acknowledged positions: each once, in order, none added, with the count of positions that
      stayed clear below the last acknowledgement. */
  lemma {:induction false} BlockAckRoundTrip(f: BlockAckFrame)
    requires ValidFrame(f)
    ensures var bits := Positions(f.window);
            var v := BitmapOf(f.acked, 0, bits);
            var acks := AckSequences(f.start, v, bits);
            && ParseControl(Encode(f)) ==
               Some(Control(9, f.duration, f.ra, Some(f.ta),
                            Window(f.ackPolicy, f.tid, f.start, bits, |acks|, acks, ClearBelow(v, BitLength(v)))))
            && (forall d: nat :: d < bits ==> (BitOf(v, d) <==> d in f.acked))
            && ListsOnce(acks, f)
  {
    ParsesAsWindow(f);
    AckedCounts(f);
    AckedSet(f);
  }

  lemma {:induction false} AckedCounts(f: BlockAckFrame)
    requires ValidFrame(f)
    ensures var bits := Positions(f.window);
            var v := BitmapOf(f.acked, 0, bits);
            BitCount(v) == |AckSequences(f.start, v, bits)| && BitLength(v) - BitCount(v) == ClearBelow(v, BitLength(v))
  {
    var bits := Positions(f.window);
    var v := BitmapOf(f.acked, 0, bits);
    BitmapBound(f.acked, 0, bits);
    BitCountIsSetBelow(v, bits);
    AckDistinct(f.start, v, bits);
    ZeroPositions(v);
  }

  lemma {:induction false} AckedSet(f: BlockAckFrame)
    requires ValidFrame(f)
    ensures var bits := Positions(f.window);
            var v := BitmapOf(f.acked, 0, bits);
            && (forall d: nat :: d < bits ==> (BitOf(v, d) <==> d in f.acked))
            && ListsOnce(AckSequences(f.start, v, bits), f)
  {
    var bits := Positions(f.window);
    var v := BitmapOf(f.acked, 0, bits);
    AckDistinct(f.start, v, bits);
    forall d: nat | d < bits
      ensures BitOf(v, d) <==> d in f.acked
    {
      BitmapBits(f.acked, 0, bits, d);
    }
    forall s: nat
      ensures s in AckSequences(f.start, v, bits) <==> exists d :: d in f.acked && s == SequenceAt(f, d)
    {
      AckedMember(f, v, bits, s);
    }
  }

  lemma {:induction false} AckedMember(f: BlockAckFrame, v: nat, bits: nat, s: nat)
    requires forall d: nat :: d < bits ==> (BitOf(v, d) <==> d in f.acked)
    requires forall d :: d in f.acked ==> d < bits
    ensures s in AckSequences(f.start, v, bits) <==> exists d :: d in f.acked && s == SequenceAt(f, d)
  {
    if s in AckSequences(f.start, v, bits) {
      var d := AckPosition(f.start, v, bits, s);
      assert d in f.acked && s == SequenceAt(f, d);
    } else if d :| d in f.acked && s == SequenceAt(f, d) {
      AckListed(f.start, v, bits, d);
      assert false;
    }
  }

  lemma {:induction false} FrameControl(flags: Byte)
    ensures Field(0x94 + 256 * (flags as int), 4, 4) == 1 && Field(0x94 + 256 * (flags as int), 16, 16) == 9
  {
    Digit(0, 37 + 64 * flags, 4);
    Digit(1, 9 + 16 * flags, 4);
    Digit(4, 9 + 16 * flags, 16);
    Digit(9, flags, 16);
  }

  // ---------------------------------------------------------------- every other control frame

  /** The first ten octets of a frame. */
  datatype Head = Head(version: nat, kind: nat, subtype: nat, flags: Byte, duration: nat, ra: Bytes)

  ghost predicate ValidHead(h: Head) {
    h.version < 4 && h.kind < 4 && h.subtype < 16 && h.duration < 65536 && |h.ra| == 6
  }

  function HeadOctets(h: Head): (b: Bytes)
    requires ValidHead(h)
    ensures |b| == 10
  {
    [h.version + 4 * h.kind + 16 * h.subtype, h.flags] + PutLe16(h.duration) + h.ra
  }

  lemma {:induction false} HeadFields(h: Head, rest: Bytes)
    requires ValidHead(h)
    ensures var frame := HeadOctets(h) + rest;
            && Field(Le16(frame, 0), 4, 4) == h.kind && Field(Le16(frame, 0), 16, 16) == h.subtype
            && Le16(frame, 2) == h.duration && frame[4..10] == h.ra
  {
    var frame, duration := HeadOctets(h) + rest, PutLe16(h.duration);
    assert frame[0] == h.version + 4 * h.kind + 16 * h.subtype && frame[1] == h.flags;
    assert frame[2] == duration[0] && frame[3] == duration[1];
    Digit(h.version, h.kind + 4 * (h.subtype + 16 * h.flags), 4);
    Digit(h.kind, h.subtype + 16 * h.flags, 4);
    Digit(h.version + 4 * h.kind, h.subtype + 16 * h.flags, 16);
    Digit(h.subtype, h.flags, 16);
  }

  lemma {:induction false} TooShort(frame: Bytes)
    ensures |frame| < 10 ==> ParseControl(frame).None?
  {
  }

  /** Frames of other types are refused. Of the control frames RTS, BlockAckReq and BlockAck have a
      transmitter address, or are reported short; the others end with the receiver's. */
  lemma {:induction false} ControlRead(h: Head, rest: Bytes)
    requires ValidHead(h)
    ensures var parsed := ParseControl(HeadOctets(h) + rest);
            && (h.kind != 1 ==> parsed.None?)
            && (h.kind == 1 && h.subtype !in {8, 9, 11} ==>
                  parsed == Some(Control(h.subtype, h.duration, h.ra, None, NotBlockAck)))
            && (h.kind == 1 && h.subtype in {8, 9, 11} && |rest| < 6 ==>
                  parsed == Some(Control(h.subtype, h.duration, h.ra, None, ShortTa)))
            && (h.kind == 1 && h.subtype == 11 && |rest| >= 6 ==>
                  parsed == Some(Control(11, h.duration, h.ra, Some(rest[..6]), NotBlockAck)))
            && (h.kind == 1 && h.subtype in {8, 9} && 6 <= |rest| < 8 ==>
                  parsed == Some(Control(h.subtype, h.duration, h.ra, Some(rest[..6]), ShortBaControl)))
  {
    HeadFields(h, rest);
    if |rest| >= 6 {
      assert (HeadOctets(h) + rest)[10..16] == rest[..6];
    }
  }

  /** The BA Control field of a request or a BlockAck. */
  datatype BaWord = BaWord(ackPolicy: nat, baType: nat, reserved: nat, tid: nat)

  ghost predicate ValidWord(w: BaWord) {
    w.ackPolicy < 2 && w.baType < 16 && w.reserved < 128 && w.tid < 16
  }

  function WordOf(w: BaWord): (v: nat)
    requires ValidWord(w)
    ensures v < 65536
  {
    w.ackPolicy + 2 * w.baType + 32 * w.reserved + 4096 * w.tid
  }

  lemma {:induction false} WordFields(w: BaWord)
    requires ValidWord(w)
    ensures WordOf(w) % 2 == w.ackPolicy && Field(WordOf(w), 2, 16) == w.baType && WordOf(w) / 4096 == w.tid
  {
    Digit(w.ackPolicy, w.baType + 16 * (w.reserved + 128 * w.tid), 2);
    Digit(w.baType, w.reserved + 128 * w.tid, 16);
    Digit(w.ackPolicy + 2 * w.baType + 32 * w.reserved, w.tid, 4096);
  }

  /** What a request or BlockAck amounts to short of a whole bitmap: another BA type, a missing
      starting sequence control, a request, an unknown size, or a bitmap cut short. */
  lemma {:induction false} BaRead(h: Head, ta: Bytes, w: BaWord, more: Bytes)
    requires ValidHead(h) && h.kind == 1 && h.subtype in {8, 9} && |ta| == 6 && ValidWord(w)
    ensures var parsed := ParseControl(HeadOctets(h) + (ta + (PutLe16(WordOf(w)) + more)));
            && parsed.Some? && parsed.value == Control(h.subtype, h.duration, h.ra, Some(ta), parsed.value.ba)
            && (w.baType != 2 ==> parsed.value.ba == OtherBaType(w.baType, w.ackPolicy))
            && (w.baType == 2 && |more| < 2 ==> parsed.value.ba == ShortSsc(w.ackPolicy))
  {
    var rest := ta + (PutLe16(WordOf(w)) + more);
    var frame := HeadOctets(h) + rest;
    HeadFields(h, rest);
    WordFields(w);
    assert frame[10..16] == ta;
    assert frame[16] == PutLe16(WordOf(w))[0] && frame[17] == PutLe16(WordOf(w))[1];
  }

  lemma {:induction false} StartRead(h: Head, ta: Bytes, w: BaWord, selector: nat, start: nat, tail: Bytes)
    requires ValidHead(h) && h.kind == 1 && h.subtype in {8, 9} && |ta| == 6 && ValidWord(w) && w.baType == 2
    requires selector < 16 && start < 4096
    ensures var more := PutLe16(selector + 16 * start) + tail;
            var parsed := ParseControl(HeadOctets(h) + (ta + (PutLe16(WordOf(w)) + more)));
            && parsed.Some?
            && (h.subtype == 8 ==> parsed.value.ba == Request(w.ackPolicy, w.tid, start))
            && (h.subtype == 9 && selector !in {0, 4, 8, 10} ==>
                  parsed.value.ba == UnknownBitmapSize(w.ackPolicy, w.tid, start))
            && (forall size: WindowSize :: h.subtype == 9 && Selector(size) == selector ==>
                  if |tail| < Positions(size) / 8 then parsed.value.ba == ShortBitmap(w.ackPolicy, w.tid, start)
                  else parsed.value.ba.Window?)
  {
    var ssc := PutLe16(selector + 16 * start);
    var rest := ta + (PutLe16(WordOf(w)) + (ssc + tail));
    var frame := HeadOctets(h) + rest;
    HeadFields(h, rest);
    WordFields(w);
    Digit(selector, start, 16);
    assert frame[16] == PutLe16(WordOf(w))[0] && frame[17] == PutLe16(WordOf(w))[1];
    assert frame[18] == ssc[0] && frame[19] == ssc[1];
  }
}
