/** RAM images written field by field, apart from the parsers, and the commands that loading one must
    send (struct mt76_connac2_fw_trailer and _fw_region, as mt7921u.py and c/mt7921_mcu.c read them). */
module RamWriter {
  import opened Wire
  import opened Download
  import opened RamImage

  // ---------------------------------------------------------------- the image

  /** The feature octet, bit by bit. */
  datatype Features = Features(encrypted: bool, keyIndex: nat, third: bool, mixed: bool, overrides: bool,
                               skipped: bool, seventh: bool)

  function One(b: bool, value: nat): nat {
    if b then value else 0
  }

  function FeatureOctet(f: Features): nat
    requires f.keyIndex < 4
  {
    One(f.encrypted, 1) + 2 * f.keyIndex + One(f.third, 8) + One(f.mixed, 16) + One(f.overrides, 32) +
    One(f.skipped, 64) + One(f.seventh, 128)
  }

  /** One region record: sixteen octets that loading does not look at, address, length, features, type
      and fourteen more octets. */
  datatype Record = Record(head: Bytes, address: nat, length: nat, features: Features, kind: Byte, tail: Bytes)

  ghost predicate ValidRecord(r: Record) {
    && |r.head| == 16 && |r.tail| == 14 && r.address < U32_LIMIT && r.length < U32_LIMIT && r.features.keyIndex < 4
  }

  function RecordOctets(r: Record): (b: Bytes)
    requires ValidRecord(r)
    ensures |b| == 40
  {
    r.head + PutLe32(r.address) + PutLe32(r.length) + [FeatureOctet(r.features), r.kind] + r.tail
  }

  /** Payload, region records, and a trailer whose third octet counts them. */
  datatype Image = Image(payload: Bytes, records: seq<Record>, chip: Byte, eco: Byte, rest: Bytes)

  ghost predicate ValidImage(m: Image) {
    |m.records| < 256 && |m.rest| == 33 && forall i :: 0 <= i < |m.records| ==> ValidRecord(m.records[i])
  }

  function Records(rs: seq<Record>, n: nat): (b: Bytes)
    requires n <= |rs| && forall i :: 0 <= i < |rs| ==> ValidRecord(rs[i])
    ensures |b| == 40 * n
  {
    if n == 0 then [] else Records(rs, n - 1) + RecordOctets(rs[n - 1])
  }

  function Octets(m: Image): (b: Bytes)
    requires ValidImage(m)
    ensures |b| == |m.payload| + 40 * |m.records| + 36
  {
    m.payload + Records(m.records, |m.records|) + [m.chip, m.eco, |m.records|] + m.rest
  }

  // ---------------------------------------------------------------- what a load must send

  function Mode(f: Features): nat {
    0x8000_0000 + One(f.encrypted, 1 + 8) + 2 * f.keyIndex + One(f.mixed, 64)
  }

  /** The lengths before record k. */
  function Before(rs: seq<Record>, k: nat): nat
    requires k <= |rs|
  {
    if k == 0 then 0 else Before(rs, k - 1) + rs[k - 1].length
  }

  /** The piece of the payload that record k is about. */
  function Piece(m: Image, k: nat): Bytes
    requires k < |m.records| && Before(m.records, k) + m.records[k].length <= |m.payload|
  {
    m.payload[Before(m.records, k)..Before(m.records, k) + m.records[k].length]
  }

  /** The address of the last record that overrides the start address; zero without one. */
  function StartAddress(rs: seq<Record>, n: nat): nat
    requires n <= |rs|
  {
    if n == 0 then 0
    else if rs[n - 1].features.overrides then rs[n - 1].address
    else StartAddress(rs, n - 1)
  }

  function Wanted(m: Image, k: nat): seq<Command>
    requires ValidImage(m) && k <= |m.records| && Before(m.records, |m.records|) <= |m.payload|
    decreases |m.records| - k
  {
    var r := m.records;
    if k == |r| then
      var start := StartAddress(r, |r|);
      [FirmwareStart(if start == 0 then 0 else 1, start)]
    else RegionWanted(m, k) + Wanted(m, k + 1)
  }

  /** The announcement and the octets of one region, or nothing. */
  function RegionWanted(m: Image, k: nat): seq<Command>
    requires ValidImage(m) && k < |m.records| && Before(m.records, |m.records|) <= |m.payload|
  {
    var r := m.records[k];
    BeforeGrows(m.records, k, |m.records|);
    if r.features.skipped then []
    else [Announce(r.address == 0x90_0000, r.address, r.length, Mode(r.features))] + Chunks(Piece(m, k), 0)
  }

  lemma {:induction false} BeforeGrows(rs: seq<Record>, k: nat, n: nat)
    requires k < n <= |rs|
    ensures Before(rs, k) + rs[k].length <= Before(rs, n)
    decreases n
  {
    if k < n - 1 {
      BeforeGrows(rs, k, n - 1);
    }
  }

  // ---------------------------------------------------------------- read back

  function HighFeatures(f: Features): nat {
    One(f.mixed, 1) + 2 * (One(f.overrides, 1) + 2 * (One(f.skipped, 1) + 2 * One(f.seventh, 1)))
  }

  lemma {:induction false} LowFeatures(f: Features)
    requires f.keyIndex < 4
    ensures var o := FeatureOctet(f); Bit(o, 1) == f.encrypted && Field(o, 2, 4) == f.keyIndex
  {
    var above := One(f.third, 1) + 2 * HighFeatures(f);
    Digit(One(f.encrypted, 1), f.keyIndex + 4 * above, 2);
    Digit(f.keyIndex, above, 4);
  }

  lemma {:induction false} FeatureBits(f: Features)
    requires f.keyIndex < 4
    ensures var o := FeatureOctet(f);
            && o < 256 && Bit(o, 1) == f.encrypted && Field(o, 2, 4) == f.keyIndex && Bit(o, 16) == f.mixed
            && Bit(o, 32) == f.overrides && Bit(o, 64) == f.skipped
  {
    LowFeatures(f);
    var lower := One(f.encrypted, 1) + 2 * f.keyIndex + One(f.third, 8);
    var high := One(f.skipped, 1) + 2 * One(f.seventh, 1);
    MiddleBit(FeatureOctet(f), lower, f.mixed, One(f.overrides, 1) + 2 * high, 16);
    MiddleBit(FeatureOctet(f), lower + One(f.mixed, 16), f.overrides, high, 32);
    MiddleBit(FeatureOctet(f), lower + One(f.mixed, 16) + One(f.overrides, 32), f.skipped, One(f.seventh, 1), 64);
  }

  lemma {:induction false} MiddleBit(v: nat, low: nat, b: bool, high: nat, power: nat)
    requires low < power && v == low + power * (One(b, 1) + 2 * high)
    ensures Bit(v, power) == b
  {
    Digit(low, One(b, 1) + 2 * high, power);
  }

  /** What the parsers make of a record. */
  function RegionOf(r: Record): Region
    requires ValidRecord(r)
  {
    FeatureBits(r.features);
    Region(r.address, r.length, FeatureOctet(r.features), r.kind)
  }

  lemma {:induction false} RecordAt(b: Bytes, base: nat, r: Record)
    requires ValidRecord(r) && base + 40 <= |b| && b[base..base + 40] == RecordOctets(r)
    ensures Region(Le32(b, base + 16), Le32(b, base + 20), b[base + 24], b[base + 25]) == RegionOf(r)
  {
    var e, address, length := RecordOctets(r), PutLe32(r.address), PutLe32(r.length);
    SliceOfSlice(b, base, 40, 16, 20);
    SliceOfSlice(b, base, 40, 20, 24);
    assert e[16..20] == address[0..4] && e[20..24] == length[0..4];
    LeAgree(b, base + 16, address, 0, 4);
    LeAgree(b, base + 20, length, 0, 4);
    assert b[base + 24] == b[base..base + 40][24] == e[24] && b[base + 25] == b[base..base + 40][25] == e[25];
  }

  lemma {:induction false} RecordsAt(rs: seq<Record>, n: nat, k: nat)
    requires k < n <= |rs| && forall i :: 0 <= i < |rs| ==> ValidRecord(rs[i])
    ensures Records(rs, n)[40 * k..40 * k + 40] == RecordOctets(rs[k])
    decreases n
  {
    if k < n - 1 {
      RecordsAt(rs, n - 1, k);
      var before := Records(rs, n - 1);
      assert Records(rs, n)[..40 * (n - 1)] == before;
      assert Records(rs, n)[40 * k..40 * k + 40] == before[40 * k..40 * k + 40];
    }
  }

  lemma {:induction false} ImageAt(m: Image, k: nat)
    requires ValidImage(m) && k < |m.records|
    ensures var base := |m.payload| + 40 * k; Octets(m)[base..base + 40] == RecordOctets(m.records[k])
  {
    var p, table := |m.payload|, Records(m.records, |m.records|);
    RecordsAt(m.records, |m.records|, k);
    assert Octets(m)[p..p + |table|] == table;
    SliceOfSlice(Octets(m), p, |table|, 40 * k, 40 * k + 40);
  }

  /** The parsers find the count, the metadata and every record. */
  lemma {:induction false} ImageParses(m: Image)
    requires ValidImage(m)
    ensures var b, n := Octets(m), |m.records|;
            && HasMetadata(b) && RegionCount(b) == n && MetadataLength(b) == 40 * n + 36
            && forall k :: 0 <= k < n ==> RegionsOf(b, n)[k] == RegionOf(m.records[k])
  {
    var b, n := Octets(m), |m.records|;
    assert b[|b| - 34] == n;
    forall k | 0 <= k < n
      ensures RegionAt(b, k) == RegionOf(m.records[k])
    {
      ImageAt(m, k);
      RecordAt(b, |m.payload| + 40 * k, m.records[k]);
    }
  }

  lemma {:induction false} SameOffsets(m: Image, rs: seq<Region>, k: nat)
    requires ValidImage(m) && k <= |m.records| == |rs|
    requires forall i :: 0 <= i < |rs| ==> rs[i] == RegionOf(m.records[i])
    ensures OffsetOf(rs, k) == Before(m.records, k) && OverrideOf(rs, k) == StartAddress(m.records, k)
  {
    if k > 0 {
      SameOffsets(m, rs, k - 1);
      FeatureBits(m.records[k - 1].features);
    }
  }

  /** An image is accepted if and only if its records ask for no more than the payload, and by C only
      with one to sixteen of them. */
  lemma {:induction false} ImageAccepted(host: Host, m: Image)
    requires ValidImage(m)
    ensures Accepts(host, Octets(m)) <==>
            Before(m.records, |m.records|) <= |m.payload| && (host.C? ==> 1 <= |m.records| <= 16)
  {
    ImageParses(m);
    SameOffsets(m, RegionsOf(Octets(m), |m.records|), |m.records|);
  }

  /** What a load of an image must send: region by region the announcement with its mode and the
      region's own octets, nothing for a skipped one, and the start request. */
  lemma {:induction false} RestWritten(m: Image, rs: seq<Region>, k: nat)
    requires ValidImage(m) && k <= |m.records| == |rs| && Before(m.records, |m.records|) <= |m.payload|
    requires forall i :: 0 <= i < |rs| ==> rs[i] == RegionOf(m.records[i])
    ensures Rest(Octets(m), rs, k) == Wanted(m, k)
    decreases |m.records| - k
  {
    var n := |m.records|;
    if k == n {
      SameOffsets(m, rs, n);
    } else {
      RestWritten(m, rs, k + 1);
      RestNext(Octets(m), rs, k);
      RegionWritten(m, rs, k);
    }
  }

  lemma {:induction false} RestNext(blob: Bytes, rs: seq<Region>, k: nat)
    requires k < |rs|
    ensures Rest(blob, rs, k) == RegionPlan(blob, rs, k) + Rest(blob, rs, k + 1)
  {
  }

  lemma {:induction false} RegionWritten(m: Image, rs: seq<Region>, k: nat)
    requires ValidImage(m) && k < |m.records| == |rs| && Before(m.records, |m.records|) <= |m.payload|
    requires forall i :: 0 <= i < |rs| ==> rs[i] == RegionOf(m.records[i])
    ensures RegionPlan(Octets(m), rs, k) == RegionWanted(m, k)
  {
    var r, at := m.records[k], Before(m.records, k);
    BeforeGrows(m.records, k, |m.records|);
    SameOffsets(m, rs, k);
    FeatureBits(r.features);
    SliceIs(Octets(m), m.payload, at, at + r.length);
  }

  lemma {:induction false} SliceIs(b: Bytes, payload: Bytes, lo: nat, hi: nat)
    requires lo <= hi <= |payload| <= |b| && b[..|payload|] == payload
    ensures Slice(b, lo, hi) == payload[lo..hi]
  {
    assert b[0..|payload|] == b[..|payload|];
    SliceOfSlice(b, 0, |payload|, lo, hi);
    assert hi > lo ==> Slice(b, lo, hi) == b[lo..hi];
  }

  /** Loading a written image, on either host: nothing is sent for one that is not accepted, and
      otherwise a prefix of what is wanted, all of it when the load succeeds. */
  method LoadWritten(host: Host, device: Device, ghost m: Image, blob: Bytes) returns (ok: bool, log: seq<Command>)
    requires ValidImage(m) && blob == Octets(m)
    ensures var sound := Before(m.records, |m.records|) <= |m.payload| && (host.C? ==> 1 <= |m.records| <= 16);
            && (!sound ==> !ok && log == [])
            && (sound ==> log <= Wanted(m, 0) && (ok ==> log == Wanted(m, 0)))
  {
    ok, log := LoadDelivers(host, device, blob);
    ImageAccepted(host, m);
    ImageParses(m);
    if Accepts(host, blob) {
      RestWritten(m, RegionsOf(blob, |m.records|), 0);
    }
  }
}
