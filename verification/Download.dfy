/** Firmware download commands over a device that may answer, refuse or fail at any step
    (mt7921u.py, c/mt7921_mcu.c): what is sent is a prefix of a plan, cut at the first failure. */
module Download {
  import opened Wire

  const SCATTER_MAX := 4096

  datatype Command =
    | PatchSemaphore(get: bool)
    | Announce(patchStart: bool, address: nat, length: nat, mode: nat)
    | Scatter(chunk: Bytes)
    | PatchFinish
    | FirmwareStart(option: nat, override: nat)

  /** What the i-th command meets: no usable reply, or a reply with a status byte and a length. */
  datatype Answer = Failed | Replied(status: Byte, length: nat)

  type Device = nat -> Answer

  // ---------------------------------------------------------------- plans

  /** The commands actually sent for a plan whose first command is the `at`-th, and whether all
      went through. */
  function Execute(device: Device, plan: seq<Command>, at: nat): (seq<Command>, bool) {
    if plan == [] then ([], true)
    else if device(at).Failed? then ([plan[0]], false)
    else
      var (sent, ok) := Execute(device, plan[1..], at + 1);
      ([plan[0]] + sent, ok)
  }

  ghost predicate Answered(device: Device, from: nat, to: nat) {
    forall i: nat :: from <= i < to ==> !device(i).Failed?
  }

  /** What is sent is a prefix of the plan: all of it, each command answered, or up to and
      including the first that failed. */
  lemma {:induction false} ExecuteIsPrefix(device: Device, plan: seq<Command>, at: nat)
    ensures var (sent, ok) := Execute(device, plan, at);
            && sent <= plan
            && (ok ==> sent == plan && Answered(device, at, at + |plan|))
            && (!ok ==> sent != [] && device(at + |sent| - 1).Failed? && Answered(device, at, at + |sent| - 1))
  {
    if plan != [] && !device(at).Failed? {
      ExecuteIsPrefix(device, plan[1..], at + 1);
      DropOne(plan, 0);
    }
  }

  lemma {:induction false} ExecuteAppend(device: Device, a: seq<Command>, b: seq<Command>, at: nat)
    ensures var (sent, ok) := Execute(device, a, at);
            var (more, done) := Execute(device, b, at + |a|);
            Execute(device, a + b, at) == if ok then (a + more, done) else (sent, false)
  {
    if a == [] {
      Nil(b);
      Nil(Execute(device, b, at).0);
    } else {
      TailOfConcat(a, b);
      if !device(at).Failed? {
        ExecuteAppend(device, a[1..], b, at + 1);
        ExecuteIsPrefix(device, a[1..], at + 1);
        Assoc([a[0]], a[1..], Execute(device, b, at + |a|).0);
        DropOne(a, 0);
      }
    }
  }

  // ---------------------------------------------------------------- plans in parts

  /** The parts from the i-th on, then the closing commands. */
  function PlanFrom(parts: seq<seq<Command>>, last: seq<Command>, i: nat): seq<Command>
    requires i <= |parts|
    decreases |parts| - i
  {
    if i == |parts| then last else parts[i] + PlanFrom(parts, last, i + 1)
  }

  function PlanBefore(parts: seq<seq<Command>>, i: nat): seq<Command>
    requires i <= |parts|
  {
    if i == 0 then [] else PlanBefore(parts, i - 1) + parts[i - 1]
  }

  lemma {:induction false} PlanSplits(parts: seq<seq<Command>>, last: seq<Command>, i: nat)
    requires i <= |parts|
    ensures PlanFrom(parts, last, 0) == PlanBefore(parts, i) + PlanFrom(parts, last, i)
  {
    if i == 0 {
      Nil(PlanFrom(parts, last, 0));
    } else {
      PlanSplits(parts, last, i - 1);
      Assoc(PlanBefore(parts, i - 1), parts[i - 1], PlanFrom(parts, last, i));
    }
  }

  /** Neither semaphore nor finish requests. */
  ghost predicate Plain(commands: seq<Command>) {
    forall i :: 0 <= i < |commands| ==> !commands[i].PatchSemaphore? && !commands[i].PatchFinish?
  }

  lemma {:induction false} PartsArePlain(parts: seq<seq<Command>>, n: nat)
    requires n <= |parts| && forall i :: 0 <= i < |parts| ==> Plain(parts[i])
    ensures Plain(PlanBefore(parts, n))
  {
    if n > 0 {
      PartsArePlain(parts, n - 1);
    }
  }

  // ---------------------------------------------------------------- chunks

  function ChunkLength(data: Bytes, off: nat): (n: nat)
    requires off < |data|
    ensures 0 < n <= SCATTER_MAX && off + n <= |data|
  {
    if |data| - off < SCATTER_MAX then |data| - off else SCATTER_MAX
  }

  function Chunks(data: Bytes, off: nat): seq<Command>
    decreases |data| - off
  {
    if off >= |data| then []
    else [Scatter(data[off..off + ChunkLength(data, off)])] + Chunks(data, off + ChunkLength(data, off))
  }

  /** Everything a list of commands carries to the download endpoint. */
  function Payload(commands: seq<Command>): Bytes {
    if commands == [] then []
    else (if commands[0].Scatter? then commands[0].chunk else []) + Payload(commands[1..])
  }

  ghost predicate ScatterOnly(commands: seq<Command>) {
    forall i :: 0 <= i < |commands| ==> commands[i].Scatter? && 0 < |commands[i].chunk| <= 4096
  }

  /** All of them are full but the last. */
  ghost predicate FullButLast(commands: seq<Command>) {
    forall i :: 0 <= i < |commands| - 1 ==> commands[i].Scatter? && |commands[i].chunk| == 4096
  }

  /** The chunks are non-empty, of 4096 octets but for the last, which has no more, and make up the
      data from `off`. */
  lemma {:induction false} ChunksCarryAll(data: Bytes, off: nat)
    requires off <= |data|
    ensures Payload(Chunks(data, off)) == data[off..]
    ensures ScatterOnly(Chunks(data, off)) && FullButLast(Chunks(data, off))
    decreases |data| - off
  {
    if off < |data| {
      var n := ChunkLength(data, off);
      ChunksCarryAll(data, off + n);
      assert Chunks(data, off)[1..] == Chunks(data, off + n);
      assert data[off..] == data[off..off + n] + data[off + n..];
    }
  }

  lemma {:induction false} PayloadAppend(a: seq<Command>, b: seq<Command>)
    ensures Payload(a + b) == Payload(a) + Payload(b)
  {
    if a == [] {
      Nil(b);
      Nil(Payload(b));
    } else {
      TailOfConcat(a, b);
      PayloadAppend(a[1..], b);
      Assoc(if a[0].Scatter? then a[0].chunk else [], Payload(a[1..]), Payload(b));
    }
  }

  function Joined(pieces: seq<Bytes>, n: nat): Bytes
    requires n <= |pieces|
  {
    if n == 0 then [] else Joined(pieces, n - 1) + pieces[n - 1]
  }

  /** If every part of a plan carries its piece, the plan carries the pieces in order. */
  lemma {:induction false} PartsCarry(parts: seq<seq<Command>>, pieces: seq<Bytes>, n: nat)
    requires n <= |parts| == |pieces| && forall i :: 0 <= i < |parts| ==> Payload(parts[i]) == pieces[i]
    ensures Payload(PlanBefore(parts, n)) == Joined(pieces, n)
  {
    if n > 0 {
      PartsCarry(parts, pieces, n - 1);
      PayloadAppend(PlanBefore(parts, n - 1), parts[n - 1]);
    }
  }

  // ---------------------------------------------------------------- the link

  /** `rest` is what the plan, begun after `base`, still asks for after `log`. */
  ghost predicate Remaining(device: Device, base: seq<Command>, plan: seq<Command>, log: seq<Command>,
                            rest: seq<Command>)
  {
    && base + Execute(device, plan, |base|).0 == log + Execute(device, rest, |log|).0
    && Execute(device, plan, |base|).1 == Execute(device, rest, |log|).1
  }

  /** `log` is what the plan comes to, with the given success. */
  ghost predicate Ran(device: Device, base: seq<Command>, plan: seq<Command>, log: seq<Command>, ok: bool) {
    log == base + Execute(device, plan, |base|).0 && ok == Execute(device, plan, |base|).1
  }

  lemma {:induction false} RemainingStart(device: Device, base: seq<Command>, plan: seq<Command>)
    ensures Remaining(device, base, plan, base, plan)
  {
  }

  lemma {:induction false} RemainingEnd(device: Device, base: seq<Command>, plan: seq<Command>, log: seq<Command>)
    requires Remaining(device, base, plan, log, [])
    ensures Ran(device, base, plan, log, true)
  {
    Nil(log);
  }

  lemma {:induction false} RanOne(device: Device, log: seq<Command>, c: Command)
    ensures Ran(device, log, [c], log + [c], !device(|log|).Failed?)
  {
    Nil([c]);
    assert [c][1..] == [];
  }

  lemma {:induction false} RanNothing(device: Device, log: seq<Command>)
    ensures Ran(device, log, [], log, true)
  {
    Nil(log);
  }

  /** One part of the plan has run. */
  lemma {:induction false} RemainingPart(device: Device, base: seq<Command>, plan: seq<Command>, log: seq<Command>,
                                         part: seq<Command>, rest: seq<Command>, log': seq<Command>, ok: bool)
    requires Remaining(device, base, plan, log, part + rest) && Ran(device, log, part, log', ok)
    ensures ok ==> Remaining(device, base, plan, log', rest)
    ensures !ok ==> Ran(device, base, plan, log', false)
  {
    ExecuteAppend(device, part, rest, |log|);
    ExecuteIsPrefix(device, part, |log|);
    Assoc(log, part, Execute(device, rest, |log| + |part|).0);
  }

  /** One host's link to one device: every command sent is logged, whatever comes of it. */
  class Link {
    const device: Device
    const host: Host
    var log: seq<Command>

    constructor (host: Host, device: Device)
      ensures this.device == device && this.host == host && log == []
    {
      this.device, this.host, log := device, host, [];
    }

    method Send(c: Command) returns (a: Answer)
      modifies this`log
      ensures log == old(log) + [c] && a == device(|old(log)|)
    {
      a := device(|log|);
      log := log + [c];
    }

    method InitDownload(address: nat, length: nat, mode: nat) returns (ok: bool)
      modifies this`log
      ensures Ran(device, old(log), [Announced(address, length, mode)], log, ok)
    {
      RanOne(device, log, Announced(address, length, mode));
      var a := Send(Announced(address, length, mode));
      ok := !a.Failed?;
    }

    /** The scatter loop. */
    method SendFirmware(data: Bytes) returns (ok: bool)
      modifies this`log
      ensures Ran(device, old(log), Chunks(data, 0), log, ok)
    {
      ghost var base, plan := log, Chunks(data, 0);
      RemainingStart(device, base, plan);
      var off := 0;
      while off < |data|
        invariant off <= |data| && Remaining(device, base, plan, log, Chunks(data, off))
      {
        var n := ChunkLength(data, off);
        ghost var was := log;
        RanOne(device, log, Scatter(data[off..off + n]));
        var a := Send(Scatter(data[off..off + n]));
        RemainingPart(device, base, plan, was, [Scatter(data[off..off + n])], Chunks(data, off + n), log, !a.Failed?);
        if a.Failed? {
          return false;
        }
        off := off + n;
      }
      RemainingEnd(device, base, plan, log);
      ok := true;
    }
  }

  /** Address 0x900000 is announced with PATCH_START_REQ, any other with TARGET_ADDRESS_LEN_REQ. */
  function Announced(address: nat, length: nat, mode: nat): Command {
    Announce(address == 0x90_0000, address, length, mode)
  }
}
