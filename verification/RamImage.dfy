/** RAM firmware: the trailer parsers of Python and C, and the download that follows
    (mt7921u.py, c/mt7921_mcu.c). */
module RamImage {
  import opened Wire
  import opened Download

  const TRAILER := 36
  const REGION := 40
  const MAX_REGIONS := 16

  datatype Region = Region(address: nat, length: nat, features: Byte, kind: Byte)

  // ---------------------------------------------------------------- the trailer

  function RegionCount(blob: Bytes): nat
    requires |blob| >= TRAILER
  {
    blob[|blob| - TRAILER + 2] as int
  }

  function MetadataLength(blob: Bytes): nat
    requires |blob| >= TRAILER
  {
    TRAILER + RegionCount(blob) * REGION
  }

  predicate HasMetadata(blob: Bytes) {
    |blob| >= TRAILER && MetadataLength(blob) <= |blob|
  }

  /** The i-th region record; the last one ends where the trailer starts. */
  function RegionAt(blob: Bytes, i: nat): Region
    requires HasMetadata(blob) && i < RegionCount(blob)
  {
    var base := |blob| - TRAILER - (RegionCount(blob) - i) * REGION;
    Region(Le32(blob, base + 16), Le32(blob, base + 20), blob[base + 24], blob[base + 25])
  }

  function RegionsOf(blob: Bytes, n: nat): (rs: seq<Region>)
    requires HasMetadata(blob) && n <= RegionCount(blob)
    ensures |rs| == n && forall i :: 0 <= i < n ==> rs[i] == RegionAt(blob, i)
  {
    seq(n, i requires 0 <= i < n => RegionAt(blob, i))
  }

  /** Payload offset of region n: the lengths before it. */
  function OffsetOf(rs: seq<Region>, n: nat): nat
    requires n <= |rs|
  {
    if n == 0 then 0 else OffsetOf(rs, n - 1) + rs[n - 1].length
  }

  lemma {:induction false} OffsetsGrow(rs: seq<Region>, m: nat, n: nat)
    requires m <= n <= |rs|
    ensures OffsetOf(rs, m) <= OffsetOf(rs, n)
    ensures m < n ==> OffsetOf(rs, m) + rs[m].length <= OffsetOf(rs, n)
    decreases n
  {
    if m < n {
      OffsetsGrow(rs, m, n - 1);
    }
  }

  /** An image is sound when its regions' lengths fit before the metadata; C also wants one to
      sixteen regions. */
  predicate Accepts(host: Host, blob: Bytes) {
    && HasMetadata(blob)
    && (host.C? ==> 1 <= RegionCount(blob) <= MAX_REGIONS)
    && OffsetOf(RegionsOf(blob, RegionCount(blob)), RegionCount(blob)) <= |blob| - MetadataLength(blob)
  }

  /** parse_ram: all regions first, then their sum against the payload. */
  method ParsePython(blob: Bytes) returns (regions: Option<seq<Region>>)
    ensures regions.Some? <==> Accepts(Python, blob)
    ensures regions.Some? ==> regions.value == RegionsOf(blob, RegionCount(blob))
  {
    if |blob| < TRAILER || MetadataLength(blob) > |blob| {
      return None;
    }
    var list: seq<Region>, declared := [], 0;
    ghost var all := RegionsOf(blob, RegionCount(blob));
    for i := 0 to RegionCount(blob)
      invariant list == RegionsOf(blob, i) && declared == OffsetOf(all, i)
    {
      var r := RegionAt(blob, i);
      list, declared := list + [r], declared + r.length;
    }
    if declared > |blob| - MetadataLength(blob) {
      return None;
    }
    regions := Some(list);
  }

  /** mt7921_parse_ram: a running subtraction that never underflows. */
  method ParseC(blob: Bytes) returns (regions: Option<seq<Region>>)
    ensures regions.Some? <==> Accepts(C, blob)
    ensures regions.Some? ==> regions.value == RegionsOf(blob, RegionCount(blob))
  {
    if |blob| < TRAILER {
      return None;
    }
    var count := RegionCount(blob);
    if count == 0 || count > MAX_REGIONS {
      return None;
    }
    if MetadataLength(blob) > |blob| {
      return None;
    }
    var available: nat, total: nat := |blob| - MetadataLength(blob), 0;
    var list: seq<Region> := [];
    ghost var all := RegionsOf(blob, count);
    for i := 0 to count
      invariant list == RegionsOf(blob, i) && total == OffsetOf(all, i) && total <= available
    {
      var r := RegionAt(blob, i);
      var left: nat := available - total;
      OffsetsGrow(all, i, count);
      if r.length > left {
        return None;
      }
      list, total := list + [r], total + r.length;
    }
    regions := Some(list);
  }

  // ---------------------------------------------------------------- the download

  const OVERRIDE_ADDRESS := 0x20
  const NOT_DOWNLOADED := 0x40

  predicate Skipped(r: Region) {
    Bit(r.features as int, NOT_DOWNLOADED)
  }

  predicate Overrides(r: Region) {
    Bit(r.features as int, OVERRIDE_ADDRESS)
  }

  /** mt76_connac_mcu_gen_dl_mode. */
  function DownloadMode(features: Byte): nat {
    var f := features as int;
    0x8000_0000 + (if Bit(f, 1) then 9 else 0) + (if Bit(f, 16) then 64 else 0) + 2 * Field(f, 2, 4)
  }

  /** The octets of region i: they follow those of the regions before it, downloaded or not. */
  function RegionSlice(blob: Bytes, rs: seq<Region>, i: nat): Bytes
    requires i < |rs|
  {
    Slice(blob, OffsetOf(rs, i), OffsetOf(rs, i) + rs[i].length)
  }

  function SendPlan(r: Region, data: Bytes): seq<Command> {
    [Announced(r.address, r.length, DownloadMode(r.features))] + Chunks(data, 0)
  }

  function RegionPlan(blob: Bytes, rs: seq<Region>, i: nat): seq<Command>
    requires i < |rs|
  {
    if Skipped(rs[i]) then [] else SendPlan(rs[i], RegionSlice(blob, rs, i))
  }

  /** The start address: that of the last region that overrides it. */
  function OverrideOf(rs: seq<Region>, n: nat): nat
    requires n <= |rs|
  {
    if n == 0 then 0
    else if Overrides(rs[n - 1]) then rs[n - 1].address
    else OverrideOf(rs, n - 1)
  }

  function Parts(blob: Bytes, rs: seq<Region>): (parts: seq<seq<Command>>)
    ensures |parts| == |rs| && forall i :: 0 <= i < |rs| ==> parts[i] == RegionPlan(blob, rs, i)
  {
    seq(|rs|, i requires 0 <= i < |rs| => RegionPlan(blob, rs, i))
  }

  function Start(override: nat): Command {
    FirmwareStart(if override != 0 then 1 else 0, override)
  }

  /** Region by region, then the start command. */
  function Plan(blob: Bytes, rs: seq<Region>): seq<Command> {
    Rest(blob, rs, 0)
  }

  /** The plan from the i-th region on. */
  function Rest(blob: Bytes, rs: seq<Region>, i: nat): seq<Command>
    requires i <= |rs|
  {
    PlanFrom(Parts(blob, rs), [Start(OverrideOf(rs, |rs|))], i)
  }

  method Parse(host: Host, blob: Bytes) returns (regions: Option<seq<Region>>)
    ensures regions.Some? <==> Accepts(host, blob)
    ensures regions.Some? ==> regions.value == RegionsOf(blob, RegionCount(blob))
  {
    if host.Python? {
      regions := ParsePython(blob);
    } else {
      regions := ParseC(blob);
    }
  }

  /** Both load_ram functions: nothing is sent for an unsound image, and otherwise what is sent is
      the plan, cut at the first failure. */
  method Load(link: Link, blob: Bytes) returns (ok: bool)
    modifies link`log
    ensures !Accepts(link.host, blob) ==> !ok && link.log == old(link.log)
    ensures Accepts(link.host, blob) ==>
              Ran(link.device, old(link.log), Plan(blob, RegionsOf(blob, RegionCount(blob))), link.log, ok)
  {
    var parsed := Parse(link.host, blob);
    if parsed.None? {
      return false;
    }
    ok := SendRegions(link, blob, parsed.value);
  }

  /** After `log` the first i regions have gone through. */
  ghost predicate Before(device: Device, blob: Bytes, rs: seq<Region>, base: seq<Command>, log: seq<Command>, i: nat) {
    i <= |rs| && Remaining(device, base, Plan(blob, rs), log, Rest(blob, rs, i))
  }

  lemma {:induction false} RegionStep(device: Device, blob: Bytes, rs: seq<Region>, base: seq<Command>,
                                      was: seq<Command>, i: nat, log: seq<Command>, ok: bool)
    requires Before(device, blob, rs, base, was, i) && i < |rs|
    requires Ran(device, was, RegionPlan(blob, rs, i), log, ok)
    ensures ok ==> Before(device, blob, rs, base, log, i + 1)
    ensures !ok ==> Ran(device, base, Plan(blob, rs), log, false)
  {
    RemainingPart(device, base, Plan(blob, rs), was, RegionPlan(blob, rs, i), Rest(blob, rs, i + 1), log, ok);
  }

  lemma {:induction false} StartStep(device: Device, blob: Bytes, rs: seq<Region>, base: seq<Command>,
                                     was: seq<Command>)
    requires Before(device, blob, rs, base, was, |rs|)
    ensures Ran(device, base, Plan(blob, rs), was + [Start(OverrideOf(rs, |rs|))], !device(|was|).Failed?)
  {
    var start := Start(OverrideOf(rs, |rs|));
    var ok := !device(|was|).Failed?;
    RanOne(device, was, start);
    Nil([start]);
    RemainingPart(device, base, Plan(blob, rs), was, [start], [], was + [start], ok);
    if ok {
      RemainingEnd(device, base, Plan(blob, rs), was + [start]);
    }
  }

  lemma {:induction false} NoRegionsYet(device: Device, blob: Bytes, rs: seq<Region>, base: seq<Command>)
    ensures Before(device, blob, rs, base, base, 0) && OffsetOf(rs, 0) == 0 && OverrideOf(rs, 0) == 0
  {
    RemainingStart(device, base, Plan(blob, rs));
  }

  method SendRegions(link: Link, blob: Bytes, rs: seq<Region>) returns (ok: bool)
    requires HasMetadata(blob) && OffsetOf(rs, |rs|) <= |blob| - MetadataLength(blob)
    modifies link`log
    ensures Ran(link.device, old(link.log), Plan(blob, rs), link.log, ok)
  {
    ghost var base := link.log;
    var override, offset := 0, 0;
    NoRegionsYet(link.device, blob, rs, base);
    for i := 0 to |rs|
      invariant offset == OffsetOf(rs, i) && override == OverrideOf(rs, i)
      invariant Before(link.device, blob, rs, base, link.log, i)
    {
      ok := LoadNext(link, blob, rs, i, offset, base);
      if !ok {
        return false;
      }
      NextOffset(rs, i);
      override := if Overrides(rs[i]) then rs[i].address else override;
      offset := offset + rs[i].length;
    }
    ok := StartFirmware(link, blob, rs, override, base);
  }

  method StartFirmware(link: Link, blob: Bytes, ghost rs: seq<Region>, override: nat, ghost base: seq<Command>)
    returns (ok: bool)
    requires Before(link.device, blob, rs, base, link.log, |rs|) && override == OverrideOf(rs, |rs|)
    modifies link`log
    ensures Ran(link.device, base, Plan(blob, rs), link.log, ok)
  {
    StartStep(link.device, blob, rs, base, link.log);
    var a := link.Send(Start(override));
    ok := !a.Failed?;
  }

  lemma {:induction false} NextOffset(rs: seq<Region>, i: nat)
    requires i < |rs|
    ensures OffsetOf(rs, i + 1) == OffsetOf(rs, i) + rs[i].length
    ensures OverrideOf(rs, i + 1) == if Overrides(rs[i]) then rs[i].address else OverrideOf(rs, i)
  {
  }

  method LoadNext(link: Link, blob: Bytes, rs: seq<Region>, i: nat, offset: nat, ghost base: seq<Command>)
    returns (ok: bool)
    requires HasMetadata(blob) && OffsetOf(rs, |rs|) <= |blob| - MetadataLength(blob)
    requires i < |rs| && offset == OffsetOf(rs, i) && Before(link.device, blob, rs, base, link.log, i)
    modifies link`log
    ensures ok ==> Before(link.device, blob, rs, base, link.log, i + 1)
    ensures !ok ==> Ran(link.device, base, Plan(blob, rs), link.log, false)
  {
    ghost var was := link.log;
    ok := LoadRegion(link, blob, rs, i, offset);
    RegionStep(link.device, blob, rs, base, was, i, link.log, ok);
  }

  lemma {:induction false} InBounds(rs: seq<Region>, i: nat)
    requires i < |rs|
    ensures OffsetOf(rs, i) + rs[i].length <= OffsetOf(rs, |rs|)
  {
    OffsetsGrow(rs, i, |rs|);
  }

  lemma {:induction false} RegionPlanIs(blob: Bytes, rs: seq<Region>, i: nat, data: Bytes)
    requires i < |rs| && !Skipped(rs[i]) && data == Slice(blob, OffsetOf(rs, i), OffsetOf(rs, i) + rs[i].length)
    ensures RegionPlan(blob, rs, i) == SendPlan(rs[i], data)
  {
  }

  /** One turn of the region loop. The bounds check that C makes here never fires. */
  method LoadRegion(link: Link, blob: Bytes, rs: seq<Region>, i: nat, offset: nat) returns (ok: bool)
    requires i < |rs| && offset == OffsetOf(rs, i)
    requires HasMetadata(blob) && OffsetOf(rs, |rs|) <= |blob| - MetadataLength(blob)
    modifies link`log
    ensures Ran(link.device, old(link.log), RegionPlan(blob, rs, i), link.log, ok)
  {
    if Skipped(rs[i]) {
      RanNothing(link.device, link.log);
      return true;
    }
    InBounds(rs, i);
    if link.host.C? && offset + rs[i].length > |blob| - MetadataLength(blob) {
      assert false;
      return false;
    }
    var data := Slice(blob, offset, offset + rs[i].length);
    RegionPlanIs(blob, rs, i, data);
    ok := SendRegion(link, rs[i], data);
  }

  method SendRegion(link: Link, r: Region, data: Bytes) returns (ok: bool)
    modifies link`log
    ensures Ran(link.device, old(link.log), SendPlan(r, data), link.log, ok)
  {
    ghost var base, rest := link.log, Chunks(data, 0);
    ghost var first := [Announced(r.address, r.length, DownloadMode(r.features))];
    RemainingStart(link.device, base, first + rest);
    ok := link.InitDownload(r.address, r.length, DownloadMode(r.features));
    RemainingPart(link.device, base, first + rest, base, first, rest, link.log, ok);
    if !ok {
      return;
    }
    ghost var was := link.log;
    ok := link.SendFirmware(data);
    Nil(rest);
    RemainingPart(link.device, base, first + rest, was, rest, [], link.log, ok);
    if ok {
      RemainingEnd(link.device, base, first + rest, link.log);
    }
  }

  // ---------------------------------------------------------------- conservation

  function AllSlices(blob: Bytes, rs: seq<Region>): (p: seq<Bytes>)
    ensures |p| == |rs| && forall i :: 0 <= i < |rs| ==> p[i] == RegionSlice(blob, rs, i)
  {
    seq(|rs|, i requires 0 <= i < |rs| => RegionSlice(blob, rs, i))
  }

  /** The same, with nothing for a region that is not downloaded. */
  function DownloadedSlices(blob: Bytes, rs: seq<Region>): (p: seq<Bytes>)
    ensures |p| == |rs|
    ensures forall i :: 0 <= i < |rs| ==> p[i] == if Skipped(rs[i]) then [] else RegionSlice(blob, rs, i)
  {
    seq(|rs|, i requires 0 <= i < |rs| => if Skipped(rs[i]) then [] else RegionSlice(blob, rs, i))
  }

  lemma {:induction false} SlicesTile(blob: Bytes, rs: seq<Region>, n: nat)
    requires n <= |rs| && OffsetOf(rs, |rs|) <= |blob|
    ensures OffsetOf(rs, n) <= OffsetOf(rs, |rs|)
    ensures Joined(AllSlices(blob, rs), n) == blob[..OffsetOf(rs, n)]
    ensures n > 0 ==> |RegionSlice(blob, rs, n - 1)| == rs[n - 1].length
  {
    OffsetsGrow(rs, n, |rs|);
    if n > 0 {
      SlicesTile(blob, rs, n - 1);
      NextSlice(blob, OffsetOf(rs, n - 1), OffsetOf(rs, n));
    }
  }

  lemma {:induction false} NextSlice(blob: Bytes, a: nat, b: nat)
    requires a <= b <= |blob|
    ensures blob[..b] == blob[..a] + Slice(blob, a, b) && |Slice(blob, a, b)| == b - a
  {
  }

  /** In a sound image the regions tile the payload: each has its full length, they follow one
      another from the start, and none reaches the metadata. */
  lemma {:induction false} RegionsTile(host: Host, blob: Bytes, n: nat)
    requires Accepts(host, blob) && n <= RegionCount(blob)
    ensures var rs := RegionsOf(blob, RegionCount(blob));
            && OffsetOf(rs, n) <= |blob| - MetadataLength(blob)
            && Joined(AllSlices(blob, rs), n) == blob[..OffsetOf(rs, n)]
            && (n > 0 ==> |RegionSlice(blob, rs, n - 1)| == rs[n - 1].length)
  {
    SlicesTile(blob, RegionsOf(blob, RegionCount(blob)), n);
  }

  lemma {:induction false} RegionPlanCarries(blob: Bytes, rs: seq<Region>, i: nat)
    requires i < |rs|
    ensures Payload(RegionPlan(blob, rs, i)) == DownloadedSlices(blob, rs)[i]
    ensures RegionPlan(blob, rs, i) != [] ==> ScatterOnly(RegionPlan(blob, rs, i)[1..])
  {
    if !Skipped(rs[i]) {
      var data := RegionSlice(blob, rs, i);
      ChunksCarryAll(data, 0);
      assert RegionPlan(blob, rs, i)[1..] == Chunks(data, 0);
      assert data[0..] == data;
      Nil(Payload(Chunks(data, 0)));
    }
  }

  /** The whole plan carries exactly the downloaded regions' octets, in order. */
  lemma {:induction false} PlanCarries(blob: Bytes, rs: seq<Region>)
    ensures Payload(Plan(blob, rs)) == Joined(DownloadedSlices(blob, rs), |rs|)
  {
    var parts, last := Parts(blob, rs), [Start(OverrideOf(rs, |rs|))];
    forall i | 0 <= i < |rs|
      ensures Payload(parts[i]) == DownloadedSlices(blob, rs)[i]
    {
      RegionPlanCarries(blob, rs, i);
    }
    PlanSplits(parts, last, |rs|);
    PartsCarry(parts, DownloadedSlices(blob, rs), |rs|);
    PayloadAppend(PlanBefore(parts, |rs|), last);
    assert last[1..] == [];
    Nil(Payload(PlanBefore(parts, |rs|)));
  }

  /** A load that succeeds has delivered every octet of every downloaded region, once and in order. */
  method LoadDelivers(host: Host, device: Device, blob: Bytes) returns (ok: bool, log: seq<Command>)
    ensures ok ==> Accepts(host, blob) &&
                   var rs := RegionsOf(blob, RegionCount(blob));
                   log == Plan(blob, rs) && Payload(log) == Joined(DownloadedSlices(blob, rs), |rs|)
    ensures Accepts(host, blob) ==> log <= Plan(blob, RegionsOf(blob, RegionCount(blob)))
    ensures !Accepts(host, blob) ==> !ok && log == []
  {
    var link := new Link(host, device);
    ok := Load(link, blob);
    log := link.log;
    if Accepts(host, blob) {
      var rs := RegionsOf(blob, RegionCount(blob));
      ExecuteIsPrefix(device, Plan(blob, rs), 0);
      Nil(Execute(device, Plan(blob, rs), 0).0);
      PlanCarries(blob, rs);
    }
  }
}
