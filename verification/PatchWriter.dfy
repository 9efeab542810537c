/** Patch images written field by field, apart from the parsers, and the commands that loading one
    must send (struct mt76_connac2_patch_hdr and _patch_sec, as mt7921u.py and c/mt7921_mcu.c read them). */
module PatchWriter {
  import opened Wire
  import opened Download
  import opened PatchLoad

  // ---------------------------------------------------------------- the image

  function PutBe32(v: nat): (b: Bytes)
    requires v < U32_LIMIT
    ensures |b| == 4
  {
    [v / 0x100_0000, v / 0x1_0000 % 256, v / 256 % 256, v % 256]
  }

  /** One section record. The key word has the encryption type in its upper octet. */
  datatype Record = Record(kind: nat, offset: nat, size: nat, address: nat, length: nat, encryption: Byte, lower: nat,
                           tail: Bytes)

  ghost predicate ValidRecord(r: Record) {
    && r.kind < U32_LIMIT && r.offset < U32_LIMIT && r.size < U32_LIMIT && r.address < U32_LIMIT
    && r.length < U32_LIMIT && r.lower < 0x100_0000 && |r.tail| == 40
  }

  function KeyWord(r: Record): (w: nat)
    requires r.lower < 0x100_0000
    ensures w < U32_LIMIT
  {
    0x100_0000 * r.encryption + r.lower
  }

  function RecordOctets(r: Record): (b: Bytes)
    requires ValidRecord(r)
    ensures |b| == 64
  {
    PutBe32(r.kind) + PutBe32(r.offset) + PutBe32(r.size) + PutBe32(r.address) + PutBe32(r.length)
    + PutBe32(KeyWord(r)) + r.tail
  }

  /** Header with the section count at its forty-fourth octet, records, and whatever follows. */
  datatype Image = Image(front: Bytes, middle: Bytes, records: seq<Record>, rest: Bytes)

  ghost predicate ValidImage(m: Image) {
    && |m.front| == 44 && |m.middle| == 48 && |m.records| < U32_LIMIT
    && forall i :: 0 <= i < |m.records| ==> ValidRecord(m.records[i])
  }

  function Records(rs: seq<Record>, n: nat): (b: Bytes)
    requires n <= |rs| && forall i :: 0 <= i < |rs| ==> ValidRecord(rs[i])
    ensures |b| == 64 * n
  {
    if n == 0 then [] else Records(rs, n - 1) + RecordOctets(rs[n - 1])
  }

  function Octets(m: Image): (b: Bytes)
    requires ValidImage(m)
    ensures |b| == 96 + 64 * |m.records| + |m.rest|
  {
    m.front + PutBe32(|m.records|) + m.middle + Records(m.records, |m.records|) + m.rest
  }

  // ---------------------------------------------------------------- what a load must send

  /** The records a host looks at: C has sixteen slots. */
  function Slots(host: Host, m: Image): nat {
    if host.C? && |m.records| > 16 then 16 else |m.records|
  }

  predicate Inside(r: Record, size: nat) {
    r.offset + r.length <= size
  }

  predicate AllInside(host: Host, m: Image, size: nat) {
    forall i :: 0 <= i < Slots(host, m) ==> Inside(m.records[i], size)
  }

  /** No key, plain, AES with a key index, or scrambled. */
  function Mode(r: Record): nat {
    if r.encryption == 255 && r.lower == 0xFF_FFFF then 0x8000_0000
    else if r.encryption == 1 then 0x8000_0000 + 1 + 2 * (r.lower % 4) + 8
    else if r.encryption == 2 then 0x8000_0000 + 1 + 8 + 64
    else 0x8000_0000
  }

  /** Python also refuses encryption types above two, unless the whole word says there is no key. */
  predicate Accepted(host: Host, r: Record) {
    && r.kind % 0x1_0000 == 2
    && (host.Python? ==> r.encryption in {0, 1, 2} || (r.encryption == 255 && r.lower == 0xFF_FFFF))
  }

  /** From record k on: each announced and sent in full up to the first that is not accepted, and the
      finish request after the last. */
  function Wanted(host: Host, m: Image, blob: Bytes, k: nat): seq<Command>
    requires k <= Slots(host, m) && AllInside(host, m, |blob|)
    decreases Slots(host, m) - k
  {
    if k == Slots(host, m) then [PatchFinish]
    else if !Accepted(host, m.records[k]) then []
    else
      var r := m.records[k];
      assert Inside(r, |blob|);
      [Announce(r.address == 0x90_0000, r.address, r.length, Mode(r))]
      + Chunks(blob[r.offset..r.offset + r.length], 0) + Wanted(host, m, blob, k + 1)
  }

  // ---------------------------------------------------------------- read back

  lemma {:induction false} BeValue(v: nat)
    ensures 0x100_0000 * (v / 0x100_0000) + 0x1_0000 * (v / 0x1_0000 % 256) + 256 * (v / 256 % 256) + v % 256 == v
  {
    var a, r0 := v / 256, v % 256;
    var b, r1 := a / 256, a % 256;
    var d, r2 := b / 256, b % 256;
    Digit(r0 + 256 * r1, b, 0x1_0000);
    Digit(r0 + 256 * r1 + 0x1_0000 * r2, d, 0x100_0000);
  }

  lemma {:induction false} BeAt(b: Bytes, at: nat, v: nat)
    requires v < U32_LIMIT && at + 4 <= |b| && b[at..at + 4] == PutBe32(v)
    ensures Be32(b, at) == v
  {
    FourOctets(b, at);
    BeValue(v);
  }

  lemma {:induction false} FourOctets(b: Bytes, at: nat)
    requires at + 4 <= |b|
    ensures b[at..at + 4] == [b[at], b[at + 1], b[at + 2], b[at + 3]]
  {
  }

  function SectionOf(r: Record): Section
    requires ValidRecord(r)
  {
    Section(r.kind, r.offset, r.address, r.length, KeyWord(r))
  }

  lemma {:induction false} RecordParts(r: Record)
    requires ValidRecord(r)
    ensures var e := RecordOctets(r);
            && e[0..4] == PutBe32(r.kind) && e[4..8] == PutBe32(r.offset) && e[12..16] == PutBe32(r.address)
            && e[16..20] == PutBe32(r.length) && e[20..24] == PutBe32(KeyWord(r))
  {
  }

  lemma {:induction false} RecordAt(b: Bytes, base: nat, r: Record)
    requires ValidRecord(r) && base + 64 <= |b| && b[base..base + 64] == RecordOctets(r)
    ensures Section(Be32(b, base), Be32(b, base + 4), Be32(b, base + 12), Be32(b, base + 16), Be32(b, base + 20)) ==
            SectionOf(r)
  {
    RecordParts(r);
    SliceOfSlice(b, base, 64, 0, 4);
    SliceOfSlice(b, base, 64, 4, 8);
    SliceOfSlice(b, base, 64, 12, 16);
    SliceOfSlice(b, base, 64, 16, 20);
    SliceOfSlice(b, base, 64, 20, 24);
    BeAt(b, base, r.kind);
    BeAt(b, base + 4, r.offset);
    BeAt(b, base + 12, r.address);
    BeAt(b, base + 16, r.length);
    BeAt(b, base + 20, KeyWord(r));
  }

  lemma {:induction false} RecordsAt(rs: seq<Record>, n: nat, k: nat)
    requires k < n <= |rs| && forall i :: 0 <= i < |rs| ==> ValidRecord(rs[i])
    ensures Records(rs, n)[64 * k..64 * k + 64] == RecordOctets(rs[k])
    decreases n
  {
    if k < n - 1 {
      RecordsAt(rs, n - 1, k);
      var before := Records(rs, n - 1);
      assert Records(rs, n)[..64 * (n - 1)] == before;
      assert Records(rs, n)[64 * k..64 * k + 64] == before[64 * k..64 * k + 64];
    }
  }

  lemma {:induction false} ImageAt(m: Image, k: nat)
    requires ValidImage(m) && k < |m.records|
    ensures Octets(m)[96 + 64 * k..96 + 64 * k + 64] == RecordOctets(m.records[k])
  {
    var table := Records(m.records, |m.records|);
    RecordsAt(m.records, |m.records|, k);
    assert Octets(m)[96..96 + |table|] == table;
    SliceOfSlice(Octets(m), 96, |table|, 64 * k, 64 * k + 64);
  }

  lemma {:induction false} CountAt(m: Image)
    requires ValidImage(m)
    ensures |Octets(m)| >= 96 && Be32(Octets(m), 44) == |m.records|
  {
    assert Octets(m)[44..48] == PutBe32(|m.records|);
    BeAt(Octets(m), 44, |m.records|);
  }

  lemma {:induction false} SectionRead(m: Image, k: nat)
    requires ValidImage(m) && k < |m.records|
    ensures SectionAt(Octets(m), k) == SectionOf(m.records[k])
  {
    ImageAt(m, k);
    RecordAt(Octets(m), 96 + 64 * k, m.records[k]);
  }

  /** A host's parser accepts an image if and only if the sections of its slots lie inside, and reads
      them as they were written. */
  lemma {:induction false} ImageParses(host: Host, m: Image)
    requires ValidImage(m)
    ensures var b, n := Octets(m), Slots(host, m);
            && (Parsed(host, b).Some? <==> AllInside(host, m, |b|))
            && (Parsed(host, b).Some? ==>
                  |Parsed(host, b).value| == n &&
                  forall k :: 0 <= k < n ==> Parsed(host, b).value[k] == SectionOf(m.records[k]))
  {
    var b, n := Octets(m), Slots(host, m);
    CountAt(m);
    ParseUpToMeaning(b, n);
    forall k | 0 <= k < n
      ensures SectionAt(b, k) == SectionOf(m.records[k])
    {
      SectionRead(m, k);
    }
    assert forall k :: 0 <= k < n ==> (InImage(b, SectionAt(b, k)) <==> Inside(m.records[k], |b|));
  }

  lemma {:induction false} KeyFields(r: Record)
    requires r.lower < 0x100_0000
    ensures Encryption(KeyWord(r)) == r.encryption && KeyWord(r) % 4 == r.lower % 4
    ensures KeyWord(r) == 0xFFFF_FFFF <==> r.encryption == 255 && r.lower == 0xFF_FFFF
  {
    Digit(r.lower, r.encryption, 0x100_0000);
  }

  lemma {:induction false} SectionWritten(host: Host, blob: Bytes, r: Record)
    requires ValidRecord(r) && Inside(r, |blob|)
    ensures Loadable(host, SectionOf(r)) == Accepted(host, r)
    ensures SectionPlan(blob, SectionOf(r)) ==
            [Announce(r.address == 0x90_0000, r.address, r.length, Mode(r))]
            + Chunks(blob[r.offset..r.offset + r.length], 0)
  {
    KeyFields(r);
    assert Slice(blob, r.offset, r.offset + r.length) == blob[r.offset..r.offset + r.length];
  }

  ghost predicate Read(m: Image, host: Host, sections: seq<Section>) {
    && ValidImage(m) && |sections| == Slots(host, m)
    && forall k :: 0 <= k < |sections| ==> sections[k] == SectionOf(m.records[k])
  }

  lemma {:induction false} RestStep(host: Host, blob: Bytes, sections: seq<Section>, k: nat)
    requires k < FirstBad(host, sections, 0)
    ensures Rest(host, blob, sections, k) == SectionPlan(blob, sections[k]) + Rest(host, blob, sections, k + 1)
    ensures Loadable(host, sections[k])
  {
    assert PlannedParts(host, blob, sections)[k] == SectionPlan(blob, sections[k]);
  }

  lemma {:induction false} RestEnd(host: Host, blob: Bytes, sections: seq<Section>)
    ensures var n := FirstBad(host, sections, 0);
            && Rest(host, blob, sections, n) == Finish(sections, n)
            && (n < |sections| ==> !Loadable(host, sections[n]))
  {
  }

  lemma {:induction false} RecordWanted(host: Host, m: Image, blob: Bytes, sections: seq<Section>, k: nat)
    requires Read(m, host, sections) && AllInside(host, m, |blob|) && k < |sections|
    ensures Loadable(host, sections[k]) == Accepted(host, m.records[k])
    ensures Accepted(host, m.records[k]) ==>
              Wanted(host, m, blob, k) == SectionPlan(blob, sections[k]) + Wanted(host, m, blob, k + 1)
  {
    assert Inside(m.records[k], |blob|);
    SectionWritten(host, blob, m.records[k]);
  }

  lemma {:induction false} RestWritten(host: Host, m: Image, blob: Bytes, sections: seq<Section>, k: nat)
    requires Read(m, host, sections) && AllInside(host, m, |blob|) && k <= FirstBad(host, sections, 0)
    ensures Rest(host, blob, sections, k) == Wanted(host, m, blob, k)
    decreases |sections| - k
  {
    if k < |sections| {
      RecordWanted(host, m, blob, sections, k);
    }
    if k < FirstBad(host, sections, 0) {
      RestStep(host, blob, sections, k);
      RestWritten(host, m, blob, sections, k + 1);
    } else {
      RestEnd(host, blob, sections);
    }
  }

  /** The plan of a written image is what is wanted, or nothing if a section lies outside. */
  lemma {:induction false} PlanWritten(host: Host, m: Image)
    requires ValidImage(m)
    ensures var b := Octets(m);
            Plan(host, b) == if AllInside(host, m, |b|) then Wanted(host, m, b, 0) else []
  {
    ImageParses(host, m);
    if AllInside(host, m, |Octets(m)|) {
      var sections := Parsed(host, Octets(m)).value;
      RestWritten(host, m, Octets(m), sections, 0);
    }
  }

  /** What the host makes of the semaphore's answer, in C read into 64 octets. */
  predicate Says(host: Host, a: Answer, status: Byte) {
    a.Replied? && a.status == status && (host.C? ==> a.length <= 64)
  }

  /** Every record a host looks at lies inside and is accepted. */
  predicate Complete(host: Host, m: Image, size: nat) {
    AllInside(host, m, size) && forall k :: 0 <= k < Slots(host, m) ==> Accepted(host, m.records[k])
  }

  function WantedOf(host: Host, m: Image, blob: Bytes): seq<Command> {
    if AllInside(host, m, |blob|) then Wanted(host, m, blob, 0) else []
  }

  lemma {:induction false} SaysExactly(host: Host, a: Answer, status: Byte)
    ensures Says(host, a, status) <==> StatusOf(host, a) == Some(status)
  {
  }

  /** With the semaphore granted, the wanted commands up to the first that failed, and the release;
      without it nothing but the request. */
  ghost predicate SentAs(host: Host, device: Device, wanted: seq<Command>, log: seq<Command>) {
    log == if Says(host, device(0), 2)
           then [PatchSemaphore(true)] + (Execute(device, wanted, 1).0 + [PatchSemaphore(false)])
           else [PatchSemaphore(true)]
  }

  /** There if the device says so. Loaded if and only if the semaphore was granted, the image complete,
      every command answered, the finish request with zero, and, in Python, the release answered. */
  ghost predicate EndedAs(host: Host, device: Device, wanted: seq<Command>, complete: bool, outcome: Outcome) {
    && (outcome == AlreadyThere <==> Says(host, device(0), 1))
    && (outcome == Loaded <==>
          && Says(host, device(0), 2) && complete && Answered(device, 1, 1 + |wanted|)
          && Says(host, device(|wanted|), 0) && (host.Python? ==> device(1 + |wanted|).Replied?))
  }

  lemma {:induction false} TraceWritten(host: Host, device: Device, m: Image, blob: Bytes)
    requires ValidImage(m) && blob == Octets(m)
    ensures SentAs(host, device, WantedOf(host, m, blob), Trace(host, device, blob, 0))
  {
    PlanWritten(host, m);
    SaysExactly(host, device(0), 2);
    Nil([PatchSemaphore(true)]);
  }

  lemma {:induction false} EndWritten(host: Host, device: Device, wanted: seq<Command>, complete: bool)
    requires EndsInFinish(wanted) == complete
    ensures EndedAs(host, device, wanted, complete, OutcomeOf(host, device, wanted, 0))
  {
    LoadedIfFinished(host, device, wanted, 0);
    SaysExactly(host, device(0), 1);
    SaysExactly(host, device(0), 2);
    SaysExactly(host, device(|wanted|), 0);
  }

  lemma {:induction false} WantedFinishes(host: Host, m: Image, blob: Bytes)
    requires ValidImage(m) && blob == Octets(m)
    ensures EndsInFinish(WantedOf(host, m, blob)) == Complete(host, m, |blob|)
    ensures Plan(host, blob) == WantedOf(host, m, blob)
  {
    PlanWritten(host, m);
    PlanFinishes(host, blob);
    SoundExactly(host, m);
  }

  /** Loading a written image, on either host: what is sent, how it ends, and, when loaded, that exactly
      the octets of the sections were carried, in order. */
  method LoadWritten(host: Host, device: Device, ghost m: Image, blob: Bytes)
    returns (outcome: Outcome, log: seq<Command>)
    requires ValidImage(m) && blob == Octets(m)
    ensures SentAs(host, device, WantedOf(host, m, blob), log)
    ensures EndedAs(host, device, WantedOf(host, m, blob), Complete(host, m, |blob|), outcome)
    ensures outcome == Loaded ==> Complete(host, m, |blob|) && Payload(log) == JoinedFrom(Pieces(host, m, blob), 0)
  {
    outcome, log := LoadPatch(host, device, blob);
    TraceWritten(host, device, m, blob);
    WantedFinishes(host, m, blob);
    EndWritten(host, device, WantedOf(host, m, blob), Complete(host, m, |blob|));
    LoadedCarries(host, device, m, blob, log, outcome);
  }

  lemma {:induction false} LoadedCarries(host: Host, device: Device, m: Image, blob: Bytes, log: seq<Command>,
                                         outcome: Outcome)
    requires SentAs(host, device, WantedOf(host, m, blob), log)
    requires EndedAs(host, device, WantedOf(host, m, blob), Complete(host, m, |blob|), outcome)
    ensures outcome == Loaded ==> Complete(host, m, |blob|) && Payload(log) == JoinedFrom(Pieces(host, m, blob), 0)
  {
    if outcome == Loaded {
      WantedDelivered(host, device, m, blob);
    }
  }

  lemma {:induction false} WantedDelivered(host: Host, device: Device, m: Image, blob: Bytes)
    requires Complete(host, m, |blob|) && Answered(device, 1, 1 + |WantedOf(host, m, blob)|)
    ensures var wanted := WantedOf(host, m, blob);
            Payload([PatchSemaphore(true)] + (Execute(device, wanted, 1).0 + [PatchSemaphore(false)])) ==
            JoinedFrom(Pieces(host, m, blob), 0)
  {
    var wanted := WantedOf(host, m, blob);
    ExecuteIsPrefix(device, wanted, 1);
    AllSent(device, wanted, 1);
    WantedCarries(host, m, blob, 0);
    PayloadAppend([PatchSemaphore(true)], wanted + [PatchSemaphore(false)]);
    PayloadAppend(wanted, [PatchSemaphore(false)]);
    NothingCarried(PatchSemaphore(true));
    NothingCarried(PatchSemaphore(false));
    Nil(Payload(wanted));
  }

  lemma {:induction false} NothingCarried(c: Command)
    requires !c.Scatter?
    ensures Payload([c]) == []
  {
    assert [c][1..] == [];
    Nil<Byte>([]);
  }

  lemma {:induction false} AllSent(device: Device, plan: seq<Command>, at: nat)
    requires Answered(device, at, at + |plan|)
    ensures Execute(device, plan, at).0 == plan
  {
    ExecuteIsPrefix(device, plan, at);
    if !Execute(device, plan, at).1 {
      assert false;
    }
  }

  lemma {:induction false} SoundExactly(host: Host, m: Image)
    requires ValidImage(m)
    ensures AllSound(host, Octets(m)) <==> Complete(host, m, |Octets(m)|)
  {
    ImageParses(host, m);
    if AllInside(host, m, |Octets(m)|) {
      forall k | 0 <= k < Slots(host, m)
        ensures Loadable(host, SectionOf(m.records[k])) == Accepted(host, m.records[k])
      {
        assert Inside(m.records[k], |Octets(m)|);
        SectionWritten(host, Octets(m), m.records[k]);
      }
      var sections := Parsed(host, Octets(m)).value;
      assert forall k :: 0 <= k < |sections| ==> Loadable(host, sections[k]) == Accepted(host, m.records[k]);
    }
  }

  /** The octets of the image that record k is about. */
  function Pieces(host: Host, m: Image, blob: Bytes): (ps: seq<Bytes>)
    requires AllInside(host, m, |blob|)
    ensures |ps| == Slots(host, m)
    ensures forall k :: 0 <= k < |ps| ==>
              Inside(m.records[k], |blob|) &&
              ps[k] == blob[m.records[k].offset..m.records[k].offset + m.records[k].length]
  {
    seq(Slots(host, m), k requires 0 <= k < Slots(host, m) =>
      assert Inside(m.records[k], |blob|);
      blob[m.records[k].offset..m.records[k].offset + m.records[k].length])
  }

  function JoinedFrom(ps: seq<Bytes>, k: nat): Bytes
    requires k <= |ps|
    decreases |ps| - k
  {
    if k == |ps| then [] else ps[k] + JoinedFrom(ps, k + 1)
  }

  lemma {:induction false} RecordCarries(host: Host, m: Image, blob: Bytes, k: nat)
    requires Complete(host, m, |blob|) && k < Slots(host, m)
    ensures Payload(Wanted(host, m, blob, k)) ==
            Pieces(host, m, blob)[k] + Payload(Wanted(host, m, blob, k + 1))
  {
    var r := m.records[k];
    assert Inside(r, |blob|) && Accepted(host, r);
    Carries(Announce(r.address == 0x90_0000, r.address, r.length, Mode(r)), blob[r.offset..r.offset + r.length],
            Wanted(host, m, blob, k + 1));
  }

  /** A complete image's commands carry exactly its sections' octets, in order, before the finish. */
  lemma {:induction false} WantedCarries(host: Host, m: Image, blob: Bytes, k: nat)
    requires Complete(host, m, |blob|) && k <= Slots(host, m)
    ensures Payload(Wanted(host, m, blob, k)) == JoinedFrom(Pieces(host, m, blob), k)
    decreases Slots(host, m) - k
  {
    if k == Slots(host, m) {
      NothingCarried(PatchFinish);
    } else {
      RecordCarries(host, m, blob, k);
      WantedCarries(host, m, blob, k + 1);
    }
  }

  lemma {:induction false} Carries(first: Command, piece: Bytes, rest: seq<Command>)
    requires first.Announce?
    ensures Payload([first] + Chunks(piece, 0) + rest) == piece + Payload(rest)
  {
    ChunksCarryAll(piece, 0);
    assert piece[0..] == piece;
    PayloadAppend([first] + Chunks(piece, 0), rest);
    PayloadAppend([first], Chunks(piece, 0));
    NothingCarried(first);
    Nil(Payload(Chunks(piece, 0)));
  }
}
