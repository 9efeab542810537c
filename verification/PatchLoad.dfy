/** Patch download under the device's semaphore (mt7921u.py, c/mt7921_mcu.c): it is released on
    every path on which it was granted, and on no other. */
module PatchLoad {
  import opened Wire
  import opened Download

  const HEADER := 96
  const SECTION := 64
  const C_MAX_SECTIONS := 16
  const C_REPLY_BUFFER := 64

  const IS_DOWNLOADED := 1
  const SEMAPHORE_GRANTED := 2

  datatype Section = Section(kind: nat, offset: nat, address: nat, length: nat, key: nat)

  // ---------------------------------------------------------------- the image

  function DeclaredSections(blob: Bytes): nat
    requires |blob| >= HEADER
  {
    Be32(blob, 44)
  }

  /** C silently keeps to its sixteen slots. */
  function SectionCount(host: Host, blob: Bytes): nat
    requires |blob| >= HEADER
  {
    var n := DeclaredSections(blob);
    if host.C? && n > C_MAX_SECTIONS then C_MAX_SECTIONS else n
  }

  function SectionAt(blob: Bytes, i: nat): Section
    requires HEADER + (i + 1) * SECTION <= |blob|
  {
    var at := HEADER + i * SECTION;
    Section(Be32(blob, at), Be32(blob, at + 4), Be32(blob, at + 12), Be32(blob, at + 16), Be32(blob, at + 20))
  }

  predicate InImage(blob: Bytes, s: Section) {
    s.offset <= |blob| && s.length <= |blob| - s.offset
  }

  /** The first n sections, if each lies in the image. */
  function ParseUpTo(blob: Bytes, n: nat): Option<seq<Section>>
    requires HEADER + n * SECTION <= |blob|
  {
    if n == 0 then Some([])
    else
      var before := ParseUpTo(blob, n - 1);
      if before.None? || !InImage(blob, SectionAt(blob, n - 1)) then None
      else Some(before.value + [SectionAt(blob, n - 1)])
  }

  function Parsed(host: Host, blob: Bytes): Option<seq<Section>> {
    if |blob| < HEADER || HEADER + SectionCount(host, blob) * SECTION > |blob| then None
    else ParseUpTo(blob, SectionCount(host, blob))
  }

  lemma {:induction false} ParseUpToMeaning(blob: Bytes, n: nat)
    requires HEADER + n * SECTION <= |blob|
    ensures ParseUpTo(blob, n).Some? <==> forall i :: 0 <= i < n ==> InImage(blob, SectionAt(blob, i))
    ensures ParseUpTo(blob, n).Some? ==>
              && |ParseUpTo(blob, n).value| == n
              && forall i :: 0 <= i < n ==> ParseUpTo(blob, n).value[i] == SectionAt(blob, i)
  {
    if n > 0 {
      ParseUpToMeaning(blob, n - 1);
    }
  }

  lemma {:induction false} ParseUpToFails(blob: Bytes, m: nat, n: nat)
    requires m <= n && HEADER + n * SECTION <= |blob| && ParseUpTo(blob, m).None?
    ensures ParseUpTo(blob, n).None?
    decreases n
  {
    if m < n {
      ParseUpToFails(blob, m, n - 1);
    }
  }

  method Parse(host: Host, blob: Bytes) returns (sections: Option<seq<Section>>)
    ensures sections == Parsed(host, blob)
  {
    if |blob| < HEADER {
      return None;
    }
    var n := SectionCount(host, blob);
    if HEADER + n * SECTION > |blob| {
      return None;
    }
    var list: seq<Section> := [];
    for i := 0 to n
      invariant ParseUpTo(blob, i) == Some(list)
    {
      var s := SectionAt(blob, i);
      if s.offset > |blob| || s.length > |blob| - s.offset {
        ParseUpToFails(blob, i + 1, n);
        return None;
      }
      list := list + [s];
    }
    sections := Some(list);
  }

  // ---------------------------------------------------------------- sections

  const NOT_SUPPORTED := 0xFFFF_FFFF

  function Encryption(key: nat): nat {
    Field(key, 0x100_0000, 256)
  }

  predicate KnownEncryption(key: nat) {
    key == NOT_SUPPORTED || Encryption(key) <= 2
  }

  /** get_data_mode: need-response, and by encryption type the encrypt, key-index, reset-IV and
      scramble bits. */
  function DataMode(key: nat): nat {
    if key == NOT_SUPPORTED then 0x8000_0000
    else
      match Encryption(key)
      case 1 => 0x8000_0000 + 1 + 8 + 2 * (key % 4)
      case 2 => 0x8000_0000 + 1 + 64 + 8
      case _ => 0x8000_0000
  }

  /** Sections of another type stop the load; so does an unknown encryption type in Python, while C
      sends such a section as plain. */
  predicate Loadable(host: Host, s: Section) {
    s.kind % 0x1_0000 == 2 && (host.Python? ==> KnownEncryption(s.key))
  }

  function Announcement(s: Section): Command {
    Announced(s.address, s.length, DataMode(s.key))
  }

  function Data(blob: Bytes, s: Section): Bytes {
    Slice(blob, s.offset, s.offset + s.length)
  }

  function SectionPlan(blob: Bytes, s: Section): seq<Command> {
    [Announcement(s)] + Chunks(Data(blob, s), 0)
  }

  /** The first section from i on that stops the load, or the end. */
  function FirstBad(host: Host, sections: seq<Section>, i: nat): (n: nat)
    requires i <= |sections|
    ensures i <= n <= |sections| && (n < |sections| ==> !Loadable(host, sections[n]))
    ensures forall k :: i <= k < n ==> Loadable(host, sections[k])
    decreases |sections| - i
  {
    if i == |sections| || !Loadable(host, sections[i]) then i else FirstBad(host, sections, i + 1)
  }

  function Parts(blob: Bytes, sections: seq<Section>): (parts: seq<seq<Command>>)
    ensures |parts| == |sections| && forall i :: 0 <= i < |parts| ==> parts[i] == SectionPlan(blob, sections[i])
  {
    seq(|sections|, i requires 0 <= i < |sections| => SectionPlan(blob, sections[i]))
  }

  /** The finish request, if no section stops the load. */
  function Finish(sections: seq<Section>, n: nat): seq<Command> {
    if n == |sections| then [PatchFinish] else []
  }

  function PlanOf(host: Host, blob: Bytes, sections: seq<Section>): seq<Command> {
    var n := FirstBad(host, sections, 0);
    PlanFrom(Parts(blob, sections[..n]), Finish(sections, n), 0)
  }

  /** What follows a granted semaphore if nothing fails: the sections before the first bad one, each
      announced and sent in full, and the finish request if there is none. */
  function Plan(host: Host, blob: Bytes): seq<Command> {
    match Parsed(host, blob)
    case None => []
    case Some(sections) => PlanOf(host, blob, sections)
  }

  // ---------------------------------------------------------------- the semaphore

  /** C reads replies to this command into a 64-byte buffer, and fails on longer ones. */
  function StatusOf(host: Host, a: Answer): Option<Byte> {
    if a.Failed? || (host.C? && a.length > C_REPLY_BUFFER) then None else Some(a.status)
  }

  predicate Granted(host: Host, a: Answer) {
    StatusOf(host, a) == Some(SEMAPHORE_GRANTED)
  }

  /** A plan carried out under the semaphore. */
  function Guarded(host: Host, device: Device, plan: seq<Command>, at: nat): seq<Command> {
    [PatchSemaphore(true)] +
    (if Granted(host, device(at)) then Execute(device, plan, at + 1).0 + [PatchSemaphore(false)] else [])
  }

  /** Every command of one load, as a function of the image and the device. */
  function Trace(host: Host, device: Device, blob: Bytes, at: nat): seq<Command> {
    Guarded(host, device, Plan(host, blob), at)
  }

  datatype Outcome = AlreadyThere | Refused | Failure | Loaded

  predicate EndsInFinish(plan: seq<Command>) {
    plan != [] && plan[|plan| - 1] == PatchFinish
  }

  /** The plan ran to its end, and its end is the finish request. */
  predicate Finished(device: Device, plan: seq<Command>, at: nat) {
    Execute(device, plan, at) == (plan, true) && EndsInFinish(plan)
  }

  /** The status of the finish request, if it was sent and usably answered. */
  function FinishStatus(host: Host, device: Device, plan: seq<Command>, at: nat): Option<Byte> {
    if Finished(device, plan, at) then StatusOf(host, device(at + |plan| - 1)) else None
  }

  /** `log` is `base` and what the plan came to, and `finished` its finish status. */
  ghost predicate Tried(host: Host, device: Device, plan: seq<Command>, base: seq<Command>, log: seq<Command>,
                        finished: Option<Byte>)
  {
    && log == base + Execute(device, plan, |base|).0
    && finished == FinishStatus(host, device, plan, |base|)
  }

  // ---------------------------------------------------------------- steps of a load

  function PlannedParts(host: Host, blob: Bytes, sections: seq<Section>): seq<seq<Command>> {
    Parts(blob, sections[..FirstBad(host, sections, 0)])
  }

  /** The plan from the i-th section on. */
  function Rest(host: Host, blob: Bytes, sections: seq<Section>, i: nat): seq<Command>
    requires i <= FirstBad(host, sections, 0)
  {
    PlanFrom(PlannedParts(host, blob, sections), Finish(sections, FirstBad(host, sections, 0)), i)
  }

  /** After `log` the first i sections have gone through. */
  ghost predicate Before(host: Host, device: Device, blob: Bytes, sections: seq<Section>, base: seq<Command>,
                         log: seq<Command>, i: nat)
  {
    && i <= FirstBad(host, sections, 0) && |base| <= |log|
    && Remaining(device, base, PlanOf(host, blob, sections), log, Rest(host, blob, sections, i))
  }

  /** After `log` the i-th section has been announced. */
  ghost predicate Within(host: Host, device: Device, blob: Bytes, sections: seq<Section>, base: seq<Command>,
                         log: seq<Command>, i: nat)
  {
    && i < FirstBad(host, sections, 0) && |base| <= |log|
    && Remaining(device, base, PlanOf(host, blob, sections), log,
                 Chunks(Data(blob, sections[i]), 0) + Rest(host, blob, sections, i + 1))
  }

  lemma {:induction false} NothingSent(host: Host, device: Device, base: seq<Command>)
    ensures Tried(host, device, [], base, base, None)
  {
    Nil(base);
  }

  lemma {:induction false} Stopped(host: Host, device: Device, plan: seq<Command>, base: seq<Command>,
                                   log: seq<Command>)
    requires Ran(device, base, plan, log, false)
    ensures Tried(host, device, plan, base, log, None)
  {
  }

  lemma {:induction false} StopsAtBad(host: Host, device: Device, blob: Bytes, sections: seq<Section>,
                                      base: seq<Command>, log: seq<Command>, i: nat)
    requires Before(host, device, blob, sections, base, log, i)
    requires i < |sections| && !Loadable(host, sections[i])
    ensures Tried(host, device, PlanOf(host, blob, sections), base, log, None)
  {
    PlanShape(host, blob, sections);
    Nil(FullDownload(blob, sections[..FirstBad(host, sections, 0)]));
    RemainingEnd(device, base, PlanOf(host, blob, sections), log);
  }

  lemma {:induction false} AnnounceStep(host: Host, device: Device, blob: Bytes, sections: seq<Section>,
                                        base: seq<Command>, was: seq<Command>, i: nat, log: seq<Command>, ok: bool)
    requires Before(host, device, blob, sections, base, was, i)
    requires i < |sections| && Loadable(host, sections[i])
    requires Ran(device, was, [Announcement(sections[i])], log, ok)
    ensures ok ==> Within(host, device, blob, sections, base, log, i)
    ensures !ok ==> Tried(host, device, PlanOf(host, blob, sections), base, log, None)
  {
    var plan := PlanOf(host, blob, sections);
    var chunks, rest := Chunks(Data(blob, sections[i]), 0), Rest(host, blob, sections, i + 1);
    Assoc([Announcement(sections[i])], chunks, rest);
    RemainingPart(device, base, plan, was, [Announcement(sections[i])], chunks + rest, log, ok);
    if !ok {
      Stopped(host, device, plan, base, log);
    }
  }

  lemma {:induction false} SendStep(host: Host, device: Device, blob: Bytes, sections: seq<Section>,
                                    base: seq<Command>, was: seq<Command>, i: nat, log: seq<Command>, ok: bool)
    requires Within(host, device, blob, sections, base, was, i)
    requires Ran(device, was, Chunks(Data(blob, sections[i]), 0), log, ok)
    ensures ok ==> Before(host, device, blob, sections, base, log, i + 1)
    ensures !ok ==> Tried(host, device, PlanOf(host, blob, sections), base, log, None)
  {
    var plan := PlanOf(host, blob, sections);
    var chunks, rest := Chunks(Data(blob, sections[i]), 0), Rest(host, blob, sections, i + 1);
    RemainingPart(device, base, plan, was, chunks, rest, log, ok);
    if !ok {
      Stopped(host, device, plan, base, log);
    }
  }

  /** start_patch, after every section. */
  method StartPatch(link: Link, blob: Bytes, ghost sections: seq<Section>, ghost base: seq<Command>)
    returns (finished: Option<Byte>)
    requires Before(link.host, link.device, blob, sections, base, link.log, |sections|)
    modifies link`log
    ensures Tried(link.host, link.device, PlanOf(link.host, blob, sections), base, link.log, finished)
  {
    ghost var was := link.log;
    var a := link.Send(PatchFinish);
    finished := StatusOf(link.host, a);
    FinishStep(link.host, link.device, PlanOf(link.host, blob, sections), base, was);
  }

  lemma {:induction false} FinishStep(host: Host, device: Device, plan: seq<Command>, base: seq<Command>,
                                      was: seq<Command>)
    requires Remaining(device, base, plan, was, [PatchFinish]) && |base| <= |was|
    ensures Tried(host, device, plan, base, was + [PatchFinish], StatusOf(host, device(|was|)))
  {
    var ok := !device(|was|).Failed?;
    RanOne(device, was, PatchFinish);
    Nil([PatchFinish]);
    RemainingPart(device, base, plan, was, [PatchFinish], [], was + [PatchFinish], ok);
    if ok {
      RemainingEnd(device, base, plan, was + [PatchFinish]);
      ExecuteIsPrefix(device, plan, |base|);
      LastOf(base, plan, was, PatchFinish);
    } else {
      Stopped(host, device, plan, base, was + [PatchFinish]);
    }
  }

  /** Something was appended, so the plan is not empty and ends with it. */
  lemma {:induction false} LastOf(base: seq<Command>, plan: seq<Command>, was: seq<Command>, c: Command)
    requires base + plan == was + [c] && |base| <= |was|
    ensures plan != [] && plan[|plan| - 1] == c && |base| + |plan| - 1 == |was|
  {
    assert (base + plan)[|was|] == c;
  }

  // ---------------------------------------------------------------- the outcome

  /** The outcome of a load of the given plan: Python also fails when the release finds no usable
      reply, where C does not look at it. */
  function OutcomeOf(host: Host, device: Device, plan: seq<Command>, at: nat): Outcome {
    var status := StatusOf(host, device(at));
    if status == Some(IS_DOWNLOADED) then AlreadyThere
    else if status != Some(SEMAPHORE_GRANTED) then Refused
    else Verdict(host, FinishStatus(host, device, plan, at + 1), device(at + 1 + |plan|))
  }

  ghost predicate Resulted(host: Host, device: Device, plan: seq<Command>, base: seq<Command>, log: seq<Command>,
                           outcome: Outcome)
  {
    log == base + Guarded(host, device, plan, |base|) && outcome == OutcomeOf(host, device, plan, |base|)
  }

  lemma {:induction false} NotGranted(host: Host, device: Device, plan: seq<Command>, base: seq<Command>)
    requires !Granted(host, device(|base|))
    ensures Resulted(host, device, plan, base, base + [PatchSemaphore(true)], OutcomeOf(host, device, plan, |base|))
  {
    Nil([PatchSemaphore(true)]);
  }

  /** The outcome once the semaphore was granted, the plan tried and the release answered. */
  function Verdict(host: Host, finished: Option<Byte>, released: Answer): Outcome {
    if finished == Some(0) && (host.C? || released.Replied?) then Loaded else Failure
  }

  lemma {:induction false} WasGranted(host: Host, device: Device, plan: seq<Command>, base: seq<Command>,
                                      log: seq<Command>, finished: Option<Byte>)
    requires Granted(host, device(|base|))
    requires Tried(host, device, plan, base + [PatchSemaphore(true)], log, finished)
    ensures Resulted(host, device, plan, base, log + [PatchSemaphore(false)], Verdict(host, finished, device(|log|)))
  {
    Assemble(base, PatchSemaphore(true), Execute(device, plan, |base| + 1).0, PatchSemaphore(false));
  }

  lemma {:induction false} Assemble(base: seq<Command>, get: Command, middle: seq<Command>, release: Command)
    ensures ((base + [get]) + middle) + [release] == base + ([get] + (middle + [release]))
  {
  }

  /** A load reports success exactly when the semaphore was granted, the image is sound and all its
      sections loadable, every command was answered, the last with status zero, and, in Python, so
      was the release. */
  lemma {:induction false} LoadedExactly(host: Host, device: Device, blob: Bytes, at: nat)
    ensures var plan := Plan(host, blob);
            OutcomeOf(host, device, plan, at) == Loaded <==>
            && Granted(host, device(at)) && AllSound(host, blob)
            && Answered(device, at + 1, at + 1 + |plan|) && StatusOf(host, device(at + |plan|)) == Some(0)
            && (host.Python? ==> device(at + 1 + |plan|).Replied?)
  {
    PlanFinishes(host, blob);
    LoadedIfFinished(host, device, Plan(host, blob), at);
  }

  lemma {:induction false} LoadedIfFinished(host: Host, device: Device, plan: seq<Command>, at: nat)
    ensures OutcomeOf(host, device, plan, at) == Loaded <==>
            && Granted(host, device(at)) && EndsInFinish(plan)
            && Answered(device, at + 1, at + 1 + |plan|) && StatusOf(host, device(at + |plan|)) == Some(0)
            && (host.Python? ==> device(at + 1 + |plan|).Replied?)
  {
    FinishedExactly(device, plan, at + 1);
  }

  lemma {:induction false} FinishedExactly(device: Device, plan: seq<Command>, at: nat)
    ensures Finished(device, plan, at) <==> EndsInFinish(plan) && Answered(device, at, at + |plan|)
  {
    ExecuteIsPrefix(device, plan, at);
    if !Execute(device, plan, at).1 {
      var n := |Execute(device, plan, at).0|;
      assert device(at + n - 1).Failed? && at + n - 1 < at + |plan|;
    }
  }

  lemma {:induction false} PlanFinishes(host: Host, blob: Bytes)
    ensures EndsInFinish(Plan(host, blob)) <==> AllSound(host, blob)
  {
    if Parsed(host, blob).Some? {
      var sections := Parsed(host, blob).value;
      var n := FirstBad(host, sections, 0);
      PlanShape(host, blob, sections);
      LastOfPlan(FullDownload(blob, sections[..n]), Finish(sections, n));
    }
  }

  predicate AllSound(host: Host, blob: Bytes) {
    match Parsed(host, blob)
    case None => false
    case Some(sections) => forall i :: 0 <= i < |sections| ==> Loadable(host, sections[i])
  }

  lemma {:induction false} LastOfPlan(download: seq<Command>, finish: seq<Command>)
    requires Plain(download) && (finish == [] || finish == [PatchFinish])
    ensures var plan := download + finish;
            EndsInFinish(plan) <==> finish == [PatchFinish]
  {
  }

  // ---------------------------------------------------------------- load_patch

  /** The body of Python's try block; every way out of it but the last is an exception. */
  method Body(link: Link, blob: Bytes) returns (finished: Option<Byte>)
    modifies link`log
    ensures Tried(link.host, link.device, Plan(link.host, blob), old(link.log), link.log, finished)
  {
    ghost var base := link.log;
    var parsed := Parse(link.host, blob);
    if parsed.None? {
      NothingSent(link.host, link.device, base);
      return None;
    }
    var sections := parsed.value;
    RemainingStart(link.device, base, Plan(link.host, blob));
    for i := 0 to |sections|
      invariant Before(link.host, link.device, blob, sections, base, link.log, i)
    {
      if !Loadable(link.host, sections[i]) {
        StopsAtBad(link.host, link.device, blob, sections, base, link.log, i);
        return None;
      }
      ghost var was := link.log;
      var ok := link.InitDownload(sections[i].address, sections[i].length, DataMode(sections[i].key));
      AnnounceStep(link.host, link.device, blob, sections, base, was, i, link.log, ok);
      if !ok {
        return None;
      }
      was := link.log;
      ok := link.SendFirmware(Data(blob, sections[i]));
      SendStep(link.host, link.device, blob, sections, base, was, i, link.log, ok);
      if !ok {
        return None;
      }
    }
    finished := StartPatch(link, blob, sections, base);
  }

  /** load_patch in Python: whatever comes of the try block, its finally clause releases the
      semaphore. */
  method LoadPython(link: Link, blob: Bytes) returns (outcome: Outcome)
    requires link.host.Python?
    modifies link`log
    ensures Resulted(Python, link.device, Plan(Python, blob), old(link.log), link.log, outcome)
  {
    ghost var base, plan := link.log, Plan(Python, blob);
    var a := link.Send(PatchSemaphore(true));
    var status := StatusOf(Python, a);
    if status != Some(SEMAPHORE_GRANTED) {
      NotGranted(Python, link.device, plan, base);
      return if status == Some(IS_DOWNLOADED) then AlreadyThere else Refused;
    }
    var finished := Body(link, blob);
    WasGranted(Python, link.device, plan, base, link.log, finished);
    var released := link.Send(PatchSemaphore(false));
    outcome := if finished == Some(0) && released.Replied? then Loaded else Failure;
  }

  /** mt7921_load_patch: no finally clause, but a release before each return that follows the grant. */
  method LoadC(link: Link, blob: Bytes) returns (outcome: Outcome)
    requires link.host.C?
    modifies link`log
    ensures Resulted(C, link.device, Plan(C, blob), old(link.log), link.log, outcome)
  {
    ghost var base, plan := link.log, Plan(C, blob);
    var a := link.Send(PatchSemaphore(true));
    ghost var start := link.log;
    var sem := StatusOf(C, a);
    if sem == Some(IS_DOWNLOADED) {
      NotGranted(C, link.device, plan, base);
      return AlreadyThere;
    }
    if sem != Some(SEMAPHORE_GRANTED) {
      NotGranted(C, link.device, plan, base);
      return Refused;
    }

    var p := Parse(C, blob);
    if p.None? {
      NothingSent(C, link.device, start);
      WasGranted(C, link.device, plan, base, link.log, None);
      var _ := link.Send(PatchSemaphore(false));
      return Failure;
    }
    var sections := p.value;
    RemainingStart(link.device, start, plan);
    for i := 0 to |sections|
      invariant Before(C, link.device, blob, sections, start, link.log, i)
    {
      var sec := sections[i];
      if sec.kind % 0x1_0000 != 2 {
        StopsAtBad(C, link.device, blob, sections, start, link.log, i);
        WasGranted(C, link.device, plan, base, link.log, None);
        var _ := link.Send(PatchSemaphore(false));
        return Failure;
      }
      ghost var was := link.log;
      var ok := link.InitDownload(sec.address, sec.length, DataMode(sec.key));
      AnnounceStep(C, link.device, blob, sections, start, was, i, link.log, ok);
      if !ok {
        WasGranted(C, link.device, plan, base, link.log, None);
        var _ := link.Send(PatchSemaphore(false));
        return Failure;
      }
      was := link.log;
      ok := link.SendFirmware(Data(blob, sec));
      SendStep(C, link.device, blob, sections, start, was, i, link.log, ok);
      if !ok {
        WasGranted(C, link.device, plan, base, link.log, None);
        var _ := link.Send(PatchSemaphore(false));
        return Failure;
      }
    }

    var st := StartPatch(link, blob, sections, start);
    WasGranted(C, link.device, plan, base, link.log, st);
    var _ := link.Send(PatchSemaphore(false));
    if st != Some(0) {
      return Failure;
    }
    outcome := Loaded;
  }

  // ---------------------------------------------------------------- what every trace keeps

  ghost predicate NoSemaphore(cs: seq<Command>) {
    forall i :: 0 <= i < |cs| ==> !cs[i].PatchSemaphore?
  }

  lemma {:induction false} SectionPlanIsPlain(blob: Bytes, s: Section)
    ensures Plain(SectionPlan(blob, s))
  {
    ChunksCarryAll(Data(blob, s), 0);
  }

  /** The sections, each announced and sent in full. */
  function FullDownload(blob: Bytes, sections: seq<Section>): seq<Command> {
    PlanBefore(Parts(blob, sections), |sections|)
  }

  lemma {:induction false} FullDownloadIsPlain(blob: Bytes, sections: seq<Section>)
    ensures Plain(FullDownload(blob, sections))
  {
    forall i | 0 <= i < |sections|
      ensures Plain(Parts(blob, sections)[i])
    {
      SectionPlanIsPlain(blob, sections[i]);
    }
    PartsArePlain(Parts(blob, sections), |sections|);
  }

  lemma {:induction false} PlanShape(host: Host, blob: Bytes, sections: seq<Section>)
    ensures var n := FirstBad(host, sections, 0);
            && PlanOf(host, blob, sections) == FullDownload(blob, sections[..n]) + Finish(sections, n)
            && Plain(FullDownload(blob, sections[..n]))
  {
    var n := FirstBad(host, sections, 0);
    PlanSplits(Parts(blob, sections[..n]), Finish(sections, n), n);
    FullDownloadIsPlain(blob, sections[..n]);
  }

  lemma {:induction false} PlanHasNoSemaphore(host: Host, blob: Bytes)
    ensures NoSemaphore(Plan(host, blob))
  {
    if Parsed(host, blob).Some? {
      PlanShape(host, blob, Parsed(host, blob).value);
    }
  }

  /** A granted semaphore is released exactly once, as the last command; one that was not granted
      is left alone, and nothing else is sent. */
  ghost predicate ReleasedOnce(granted: bool, t: seq<Command>) {
    && t != [] && t[0] == PatchSemaphore(true)
    && (granted ==> |t| >= 2 && t[|t| - 1] == PatchSemaphore(false) && NoSemaphore(t[1..|t| - 1]))
    && (!granted ==> t == [PatchSemaphore(true)])
  }

  lemma {:induction false} GuardedReleases(host: Host, device: Device, plan: seq<Command>, at: nat)
    requires NoSemaphore(plan)
    ensures ReleasedOnce(Granted(host, device(at)), Guarded(host, device, plan, at))
  {
    if Granted(host, device(at)) {
      ExecuteIsPrefix(device, plan, at + 1);
      Between(PatchSemaphore(true), Execute(device, plan, at + 1).0, PatchSemaphore(false));
    } else {
      Nil([PatchSemaphore(true)]);
    }
  }

  lemma {:induction false} SemaphoreReleased(host: Host, device: Device, blob: Bytes, at: nat)
    ensures ReleasedOnce(Granted(host, device(at)), Trace(host, device, blob, at))
  {
    PlanHasNoSemaphore(host, blob);
    GuardedReleases(host, device, Plan(host, blob), at);
  }

  lemma {:induction false} Between(first: Command, middle: seq<Command>, last: Command)
    ensures var t := [first] + (middle + [last]); |t| == |middle| + 2 && t[1..|t| - 1] == middle && t[|t| - 1] == last
  {
  }

  lemma {:induction false} FinishIndex(first: Command, middle: seq<Command>, last: Command, k: nat)
    requires k < |middle| + 2 && ([first] + (middle + [last]))[k].PatchFinish?
    requires !first.PatchFinish? && !last.PatchFinish?
    ensures 1 <= k <= |middle| && middle[k - 1].PatchFinish?
  {
  }

  /** A finish request sent from a plan is its last command, with everything before it answered. */
  lemma {:induction false} FinishInPlan(device: Device, download: seq<Command>, finish: seq<Command>, at: nat, j: nat)
    requires Plain(download) && finish <= [PatchFinish]
    requires j < |Execute(device, download + finish, at).0| && Execute(device, download + finish, at).0[j].PatchFinish?
    ensures finish == [PatchFinish] && j == |download| && Execute(device, download + finish, at).0 == download + finish
    ensures Answered(device, at, at + j)
  {
    var plan := download + finish;
    ExecuteIsPrefix(device, plan, at);
    assert plan[j].PatchFinish?;
    assert j >= |download|;
  }

  lemma {:induction false} FinishInTrace(host: Host, device: Device, download: seq<Command>, finish: seq<Command>,
                                         at: nat, k: nat)
    requires Plain(download) && finish <= [PatchFinish]
    requires k < |Guarded(host, device, download + finish, at)|
    requires Guarded(host, device, download + finish, at)[k].PatchFinish?
    ensures finish == [PatchFinish] && k == |download| + 1 && Answered(device, at, at + k)
    ensures Guarded(host, device, download + finish, at) ==
            [PatchSemaphore(true)] + ((download + [PatchFinish]) + [PatchSemaphore(false)])
  {
    assert Granted(host, device(at));
    FinishIndex(PatchSemaphore(true), Execute(device, download + finish, at + 1).0, PatchSemaphore(false), k);
    FinishInPlan(device, download, finish, at + 1, k - 1);
  }

  /** The finish request is only ever sent after every section of a sound image was announced and
      sent in full, every one of those commands having gone through. */
  lemma {:induction false} FinishComesLast(host: Host, device: Device, blob: Bytes, at: nat, k: nat)
    requires k < |Trace(host, device, blob, at)| && Trace(host, device, blob, at)[k].PatchFinish?
    ensures Parsed(host, blob).Some?
    ensures var download := FullDownload(blob, Parsed(host, blob).value);
            && Trace(host, device, blob, at) ==
               [PatchSemaphore(true)] + ((download + [PatchFinish]) + [PatchSemaphore(false)])
            && k == |download| + 1 && Answered(device, at, at + k)
  {
    if Parsed(host, blob).None? {
      Nil<Command>([]);
      FinishInTrace(host, device, [], [], at, k);
    } else {
      var sections := Parsed(host, blob).value;
      var n := FirstBad(host, sections, 0);
      PlanShape(host, blob, sections);
      FinishInTrace(host, device, FullDownload(blob, sections[..n]), Finish(sections, n), at, k);
      assert sections[..n] == sections;
    }
  }

  // ---------------------------------------------------------------- the two hosts

  /** When the hosts send the same: C refuses the table, and Python with it; or Python alone refuses
      it, and C's first section is of another type; or both stop at the same section; or both have
      the same sections and stop at none. */
  predicate SameCommands(blob: Bytes) {
    match Parsed(C, blob)
    case None => true
    case Some(mine) =>
      var n := FirstBad(C, mine, 0);
      match Parsed(Python, blob)
      case None => n == 0
      case Some(all) => FirstBad(Python, all, 0) == n && (n == |mine| ==> |all| == n)
  }

  /** The same for at most sixteen sections: up to the first section of another type, no encryption
      type is unknown. */
  predicate Common(blob: Bytes) {
    && (|blob| >= HEADER ==> DeclaredSections(blob) <= C_MAX_SECTIONS)
    && match Parsed(C, blob)
       case None => true
       case Some(sections) => forall k :: 0 <= k < FirstBad(C, sections, 0) ==> KnownEncryption(sections[k].key)
  }

  lemma {:induction false} CommonExactly(blob: Bytes)
    requires |blob| >= HEADER ==> DeclaredSections(blob) <= C_MAX_SECTIONS
    ensures Common(blob) <==> SameCommands(blob)
  {
    if Parsed(C, blob).Some? {
      var sections := Parsed(C, blob).value;
      var n := FirstBad(C, sections, 0);
      if k: nat :| k < n && !KnownEncryption(sections[k].key) {
        EarlierBad(sections, k);
      } else {
        SameFirstBad(sections, 0);
      }
    }
  }

  lemma {:induction false} SameFirstBad(sections: seq<Section>, i: nat)
    requires i <= |sections|
    requires forall k :: i <= k < FirstBad(C, sections, i) ==> KnownEncryption(sections[k].key)
    ensures FirstBad(Python, sections, i) == FirstBad(C, sections, i)
    decreases |sections| - i
  {
    if i < |sections| && Loadable(C, sections[i]) {
      assert KnownEncryption(sections[i].key);
      SameFirstBad(sections, i + 1);
    }
  }

  lemma {:induction false} EarlierBad(sections: seq<Section>, k: nat)
    requires k < FirstBad(C, sections, 0) && !KnownEncryption(sections[k].key)
    ensures FirstBad(Python, sections, 0) < FirstBad(C, sections, 0)
  {
    assert !Loadable(Python, sections[k]);
  }

  /** Python and C send the same commands to every device whose semaphore reply fits the C buffer. */
  lemma {:induction false} HostsSendTheSame(device: Device, blob: Bytes, at: nat)
    requires SameCommands(blob)
    requires ReplyFits(device(at))
    ensures Trace(Python, device, blob, at) == Trace(C, device, blob, at)
  {
    SamePlanExactly(blob);
  }

  predicate ReplyFits(a: Answer) {
    a.Replied? ==> a.length <= C_REPLY_BUFFER
  }

  /** For any declared count: the hosts send the same to every device whose semaphore reply fits,
      if and only if the image meets SameCommands. */
  lemma {:induction false} HostsAgreeExactly(blob: Bytes)
    ensures SameCommands(blob) <==>
            forall device: Device, at: nat :: ReplyFits(device(at)) ==>
              Trace(Python, device, blob, at) == Trace(C, device, blob, at)
  {
    if SameCommands(blob) {
      forall device: Device, at: nat | ReplyFits(device(at))
        ensures Trace(Python, device, blob, at) == Trace(C, device, blob, at)
      {
        HostsSendTheSame(device, blob, at);
      }
    } else {
      WillingTells(blob);
      assert ReplyFits(Willing()(0));
    }
  }

  lemma {:induction false} WillingTells(blob: Bytes)
    requires !SameCommands(blob)
    ensures Trace(Python, Willing(), blob, 0) != Trace(C, Willing(), blob, 0)
  {
    SamePlanExactly(blob);
    if Trace(Python, Willing(), blob, 0) == Trace(C, Willing(), blob, 0) {
      WillingShows(Plan(Python, blob), Plan(C, blob));
    }
  }

  lemma {:induction false} WillingShows(a: seq<Command>, b: seq<Command>)
    requires Guarded(Python, Willing(), a, 0) == Guarded(C, Willing(), b, 0)
    ensures a == b
  {
    WillingRunsAll(Python, a, 0);
    WillingRunsAll(C, b, 0);
    Between(PatchSemaphore(true), a, PatchSemaphore(false));
    Between(PatchSemaphore(true), b, PatchSemaphore(false));
  }

  lemma {:induction false} SamePlanExactly(blob: Bytes)
    ensures SameCommands(blob) <==> Plan(Python, blob) == Plan(C, blob)
  {
    TablesAgree(blob);
    if Parsed(C, blob).Some? {
      var mine := Parsed(C, blob).value;
      if Parsed(Python, blob).Some? {
        SamePlanOfExactly(blob, Parsed(Python, blob).value, mine);
      } else {
        PlanIsEmptyExactly(blob, mine);
      }
    }
  }

  /** C's table is the first sixteen sections of Python's, if Python accepts the table at all. */
  lemma {:induction false} TablesAgree(blob: Bytes)
    ensures Parsed(Python, blob).Some? ==>
              && Parsed(C, blob).Some? && Parsed(C, blob).value <= Parsed(Python, blob).value
              && |Parsed(C, blob).value| == SectionCount(C, blob)
    ensures Parsed(C, blob).Some? && Parsed(Python, blob).None? ==> |Parsed(C, blob).value| > 0
  {
    if Parsed(Python, blob).Some? {
      ParsePrefix(blob, SectionCount(C, blob), SectionCount(Python, blob));
    } else if Parsed(C, blob).Some? {
      ParseUpToMeaning(blob, SectionCount(C, blob));
    }
  }

  lemma {:induction false} PlanIsEmptyExactly(blob: Bytes, mine: seq<Section>)
    requires |mine| > 0
    ensures FirstBad(C, mine, 0) == 0 <==> PlanOf(C, blob, mine) == []
  {
    var n := FirstBad(C, mine, 0);
    PlanShape(C, blob, mine);
    LongerPlan(Parts(blob, mine[..n]), 0, n);
  }

  lemma {:induction false} SamePlanOfExactly(blob: Bytes, all: seq<Section>, mine: seq<Section>)
    requires mine <= all
    ensures var n := FirstBad(C, mine, 0);
            PlanOf(Python, blob, all) == PlanOf(C, blob, mine) <==>
            FirstBad(Python, all, 0) == n && (n == |mine| ==> |all| == n)
  {
    var m, n := FirstBad(Python, all, 0), FirstBad(C, mine, 0);
    PlanShape(Python, blob, all);
    PlanShape(C, blob, mine);
    DownloadsDiffer(blob, all, mine, m, n);
    SplitPlain(FullDownload(blob, all[..m]), Finish(all, m), FullDownload(blob, mine[..n]), Finish(mine, n));
  }

  /** More sections, more commands. */
  lemma {:induction false} DownloadsDiffer(blob: Bytes, all: seq<Section>, mine: seq<Section>, m: nat, n: nat)
    requires mine <= all && m <= |all| && n <= |mine|
    ensures m == n <==> FullDownload(blob, all[..m]) == FullDownload(blob, mine[..n])
  {
    var parts := Parts(blob, all);
    SamePlanBefore(Parts(blob, all[..m]), parts, m);
    SamePlanBefore(Parts(blob, mine[..n]), parts, n);
    if m < n {
      LongerPlan(parts, m, n);
    } else if n < m {
      LongerPlan(parts, n, m);
    }
  }

  lemma {:induction false} SplitPlain(a: seq<Command>, x: seq<Command>, b: seq<Command>, y: seq<Command>)
    requires Plain(a) && Plain(b) && (x == [] || x == [PatchFinish]) && (y == [] || y == [PatchFinish])
    ensures a + x == b + y <==> a == b && x == y
  {
    LastOfPlan(a, x);
    LastOfPlan(b, y);
    Nil(a);
    Nil(b);
    if a + x == b + y {
      assert x == y;
      assert a == (a + x)[..|a|];
      assert b == (b + y)[..|b|];
    }
  }

  /** A device that grants the semaphore and answers everything. */
  function Willing(): Device {
    (_: nat) => Replied(SEMAPHORE_GRANTED, 36)
  }

  lemma {:induction false} WillingRunsAll(host: Host, plan: seq<Command>, at: nat)
    ensures Guarded(host, Willing(), plan, at) == [PatchSemaphore(true)] + (plan + [PatchSemaphore(false)])
  {
    ExecuteIsPrefix(Willing(), plan, at + 1);
  }

  /** Within sixteen sections C is the one that sends more. */
  lemma {:induction false} HostsDiffer(blob: Bytes, at: nat)
    requires |blob| >= HEADER && DeclaredSections(blob) <= C_MAX_SECTIONS && !Common(blob)
    ensures |Trace(Python, Willing(), blob, at)| < |Trace(C, Willing(), blob, at)|
  {
    var sections := Parsed(C, blob).value;
    var k: nat :| k < FirstBad(C, sections, 0) && !KnownEncryption(sections[k].key);
    EarlierBad(sections, k);
    ShorterPlan(blob, sections);
    WillingRunsAll(Python, Plan(Python, blob), at);
    WillingRunsAll(C, Plan(C, blob), at);
  }

  lemma {:induction false} ShorterPlan(blob: Bytes, sections: seq<Section>)
    requires FirstBad(Python, sections, 0) < FirstBad(C, sections, 0)
    ensures |PlanOf(Python, blob, sections)| < |PlanOf(C, blob, sections)|
  {
    var m, n := FirstBad(Python, sections, 0), FirstBad(C, sections, 0);
    PlanShape(Python, blob, sections);
    PlanShape(C, blob, sections);
    SamePlanBefore(Parts(blob, sections[..m]), Parts(blob, sections[..n]), m);
    LongerPlan(Parts(blob, sections[..n]), m, n);
  }

  /** C reads the semaphore reply into 64 octets. A longer one that grants the semaphore is taken for
      a failure, and the semaphore is not released: C releases what the device granted if and only if
      the reply fits. Python always does. */
  lemma {:induction false} ReleasesExactly(device: Device, blob: Bytes, at: nat)
    requires device(at).Replied? && device(at).status == SEMAPHORE_GRANTED
    ensures ReleasedOnce(true, Trace(C, device, blob, at)) <==> device(at).length <= C_REPLY_BUFFER
    ensures ReleasedOnce(true, Trace(Python, device, blob, at))
    ensures device(at).length > C_REPLY_BUFFER ==> Trace(C, device, blob, at) == [PatchSemaphore(true)]
  {
    SemaphoreReleased(C, device, blob, at);
    SemaphoreReleased(Python, device, blob, at);
  }

  lemma {:induction false} ParsePrefix(blob: Bytes, m: nat, n: nat)
    requires m <= n && HEADER + n * SECTION <= |blob| && ParseUpTo(blob, n).Some?
    ensures |ParseUpTo(blob, n).value| == n && ParseUpTo(blob, m) == Some(ParseUpTo(blob, n).value[..m])
    decreases n
  {
    ParseUpToMeaning(blob, n);
    if m < n {
      ParsePrefix(blob, m, n - 1);
      assert ParseUpTo(blob, n).value[..m] == ParseUpTo(blob, n - 1).value[..m];
    } else {
      assert ParseUpTo(blob, n).value[..n] == ParseUpTo(blob, n).value;
    }
  }

  lemma {:induction false} CParsesPrefix(blob: Bytes, all: seq<Section>)
    requires Parsed(Python, blob) == Some(all) && DeclaredSections(blob) > C_MAX_SECTIONS
    ensures |all| == DeclaredSections(blob) && Parsed(C, blob) == Some(all[..C_MAX_SECTIONS])
  {
    ParsePrefix(blob, C_MAX_SECTIONS, DeclaredSections(blob));
  }

  lemma {:induction false} AllLoadable(host: Host, sections: seq<Section>)
    requires forall i :: 0 <= i < |sections| ==> Loadable(Python, sections[i])
    ensures FirstBad(host, sections, 0) == |sections| && sections[..|sections|] == sections
  {
  }

  lemma {:induction false} LongerPlan(parts: seq<seq<Command>>, m: nat, n: nat)
    requires m <= n <= |parts| && forall i :: 0 <= i < |parts| ==> parts[i] != []
    ensures |PlanBefore(parts, m)| + (n - m) <= |PlanBefore(parts, n)|
    decreases n
  {
    if m < n {
      LongerPlan(parts, m, n - 1);
    }
  }

  /** With more sections than C has slots the hosts differ: C sends the first sixteen, and then
      finishes the patch as if that were all of it. */
  lemma {:induction false} TooManySections(blob: Bytes, all: seq<Section>)
    requires Parsed(Python, blob) == Some(all) && DeclaredSections(blob) > C_MAX_SECTIONS
    requires forall i :: 0 <= i < |all| ==> Loadable(Python, all[i])
    ensures |all| == DeclaredSections(blob)
    ensures Plan(Python, blob) == FullDownload(blob, all) + [PatchFinish]
    ensures Plan(C, blob) == FullDownload(blob, all[..C_MAX_SECTIONS]) + [PatchFinish]
    ensures |Plan(C, blob)| < |Plan(Python, blob)|
  {
    CParsesPrefix(blob, all);
    PrefixPlan(blob, all, C_MAX_SECTIONS);
  }

  lemma {:induction false} PrefixPlan(blob: Bytes, all: seq<Section>, m: nat)
    requires m < |all| && forall i :: 0 <= i < |all| ==> Loadable(Python, all[i])
    ensures PlanOf(Python, blob, all) == FullDownload(blob, all) + [PatchFinish]
    ensures PlanOf(C, blob, all[..m]) == FullDownload(blob, all[..m]) + [PatchFinish]
    ensures |FullDownload(blob, all[..m])| < |FullDownload(blob, all)|
  {
    var some := all[..m];
    AllLoadable(Python, all);
    AllLoadable(C, some);
    PlanShape(Python, blob, all);
    PlanShape(C, blob, some);
    SamePlanBefore(Parts(blob, some), Parts(blob, all), m);
    LongerPlan(Parts(blob, all), m, |all|);
  }

  lemma {:induction false} SamePlanBefore(a: seq<seq<Command>>, b: seq<seq<Command>>, n: nat)
    requires n <= |a| && n <= |b| && forall i :: 0 <= i < n ==> a[i] == b[i]
    ensures PlanBefore(a, n) == PlanBefore(b, n)
  {
    if n > 0 {
      SamePlanBefore(a, b, n - 1);
    }
  }

  /** A whole load on a fresh link. */
  method LoadPatch(host: Host, device: Device, blob: Bytes) returns (outcome: Outcome, log: seq<Command>)
    ensures log == Trace(host, device, blob, 0) && outcome == OutcomeOf(host, device, Plan(host, blob), 0)
    ensures ReleasedOnce(Granted(host, device(0)), log)
  {
    var link := new Link(host, device);
    if host.Python? {
      outcome := LoadPython(link, blob);
    } else {
      outcome := LoadC(link, blob);
    }
    log := link.log;
    SemaphoreReleased(host, device, blob, 0);
    Nil(Trace(host, device, blob, 0));
  }
}
