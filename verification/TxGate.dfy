/** The experimental transmit gate (c/mt7921_radio.c, c/mt7921_dev.c): bring-up, tune, prepare and
    transmit in any order, each able to fail, against a log of what was done. */
module TxGate {
  import opened Wire
  import opened RxDecode

  const MAX_WRITES := 60
  const MIN_GAP_US := 50000

  datatype Rate = CCK1 | OFDM6 | OFDM54

  datatype Tuning = Tuning(band: nat, control: Byte, center: Byte, width: nat)

  /** A tune is logged with whether it named a band, and what it tuned to if it succeeded.
      Programming marks the first register write of a rate table, Programmed its completion, and
      Wrote an attempted frame write with its time. */
  datatype Event =
    | BootStarted
    | BootDone
    | Tuned(named: bool, result: Option<Tuning>)
    | Programming(rate: Rate)
    | Programmed(rate: Rate)
    | Wrote(rate: Rate, power: int, at: int)

  type Log = seq<Event>

  // ---------------------------------------------------------------- what a log says

  function Init(log: Log): Log
    requires log != []
  {
    log[..|log| - 1]
  }

  function Last(log: Log): Event
    requires log != []
  {
    log[|log| - 1]
  }

  function TunedTo(log: Log): Option<Tuning> {
    if log == [] || Last(log).BootStarted? then None
    else if Last(log).Tuned? && Last(log).named then Last(log).result
    else TunedTo(Init(log))
  }

  function Tables(log: Log): set<Rate> {
    if log == [] || Last(log).BootStarted? then {}
    else Tables(Init(log)) + (if Last(log).Programmed? then {Last(log).rate} else {})
  }

  function Writes(log: Log): nat {
    if log == [] || Last(log).BootStarted? then 0
    else Writes(Init(log)) + (if Last(log).Wrote? then 1 else 0)
  }

  function LastWrite(log: Log): int {
    if log == [] || Last(log).BootStarted? then 0
    else if Last(log).Wrote? then Last(log).at
    else LastWrite(Init(log))
  }

  function Dirty(log: Log): bool {
    log != [] && !Last(log).BootDone? && (Last(log).Programming? || Dirty(Init(log)))
  }

  // ---------------------------------------------------------------- safety

  /** What each chip may send, and at which powers. */
  predicate Emission(chip: Chip, rate: Rate, power: int) {
    match chip
    case MT7921 => (rate, power) in {(CCK1, 0), (OFDM6, 0), (OFDM6, -8), (OFDM6, -16)}
    case MT7925 => rate in {OFDM6, OFDM54} && power in {0, -8, -16, -32}
  }

  /** 1 Mb/s CCK on channel 6; OFDM on 5 GHz channels 36 and 149. */
  predicate Place(rate: Rate, t: Tuning) {
    match rate
    case CCK1 => t == Tuning(0, 6, 6, 20)
    case _ => t in {Tuning(1, 36, 36, 20), Tuning(1, 149, 149, 20)}
  }

  predicate Allowed(chip: Chip, log: Log, rate: Rate, power: int, at: int) {
    && Emission(chip, rate, power)
    && TunedTo(log).Some? && Place(rate, TunedTo(log).value)
    && (chip.MT7925? ==> rate in Tables(log))
    && Writes(log) < MAX_WRITES
    && (Writes(log) > 0 ==> at - LastWrite(log) >= MIN_GAP_US)
  }

  /** Every write was allowed by what came before it, and no tune without a band name succeeded. */
  predicate Safe(chip: Chip, log: Log) {
    log == [] || (Safe(chip, Init(log)) && MayFollow(chip, Init(log), Last(log)))
  }

  predicate MayFollow(chip: Chip, log: Log, e: Event) {
    && (e.Wrote? ==> Allowed(chip, log, e.rate, e.power, e.at))
    && (e.Tuned? && !e.named ==> e.result.None?)
  }

  lemma {:induction false} SafeAt(chip: Chip, log: Log, i: nat)
    requires Safe(chip, log) && i < |log|
    ensures MayFollow(chip, log[..i], log[i]) && Safe(chip, log[..i])
  {
    if i < |log| - 1 {
      SafeAt(chip, Init(log), i);
      assert Init(log)[..i] == log[..i];
    }
  }

  ghost predicate NoneSince(log: Log, j: nat, boot: bool, done: bool, tune: bool) {
    forall i :: j < i < |log| ==>
      (boot ==> !log[i].BootStarted?) && (done ==> !log[i].BootDone?) && (tune ==> !(log[i].Tuned? && log[i].named))
  }

  /** Every write comes after a tune to its channel that succeeded, with no bring-up begun and no
      other tune that named a band in between. */
  lemma {:induction false} TunedMeaning(log: Log) returns (j: nat)
    requires TunedTo(log).Some?
    ensures j < |log| && log[j] == Tuned(true, TunedTo(log)) && NoneSince(log, j, true, false, true)
  {
    if Last(log).Tuned? && Last(log).named {
      j := |log| - 1;
    } else {
      j := TunedMeaning(Init(log));
    }
  }

  /** A table counts when its programming completed with no bring-up begun since. */
  lemma {:induction false} TablesMeaning(log: Log, rate: Rate)
    ensures rate in Tables(log) <==>
            exists j :: 0 <= j < |log| && log[j] == Programmed(rate) && NoneSince(log, j, true, false, false)
  {
    if log != [] {
      TablesMeaning(Init(log), rate);
      var n := |log| - 1;
      if !Last(log).BootStarted? {
        forall j | 0 <= j < n
          ensures NoneSince(log, j, true, false, false) <==> NoneSince(Init(log), j, true, false, false)
          ensures log[j] == Init(log)[j]
        {
          assert NoneSince(Init(log), j, true, false, false) ==> forall i :: j < i < n ==> !Init(log)[i].BootStarted?;
          assert NoneSince(log, j, true, false, false) ==> forall i :: j < i < n ==> Init(log)[i] == log[i];
        }
        assert NoneSince(log, n, true, false, false);
      }
    }
  }

  /** Dirty means some table write since the last bring-up that succeeded. */
  lemma {:induction false} DirtyMeaning(log: Log)
    ensures Dirty(log) <==>
            exists j :: 0 <= j < |log| && log[j].Programming? && NoneSince(log, j, false, true, false)
  {
    if log != [] {
      DirtyMeaning(Init(log));
      var n := |log| - 1;
      if !Last(log).BootDone? {
        forall j | 0 <= j < n
          ensures NoneSince(log, j, false, true, false) <==> NoneSince(Init(log), j, false, true, false)
          ensures log[j] == Init(log)[j]
        {
          assert NoneSince(Init(log), j, false, true, false) ==> forall i :: j < i < n ==> !Init(log)[i].BootDone?;
          assert NoneSince(log, j, false, true, false) ==> forall i :: j < i < n ==> Init(log)[i] == log[i];
        }
        assert NoneSince(log, n, false, true, false);
      }
    }
  }

  /** Every write of a safe log: what the chip may send, after an earlier tune at 20 MHz to a channel
      of its rate, not since undone by a bring-up or replaced by a tune that named a band, and on
      MT7925 a completed table. */
  lemma {:induction false} EveryWrite(chip: Chip, log: Log, i: nat) returns (j: nat)
    requires Safe(chip, log) && i < |log| && log[i].Wrote?
    ensures Emission(chip, log[i].rate, log[i].power)
    ensures j < i && log[j].Tuned? && log[j].named && log[j].result.Some? && Place(log[i].rate, log[j].result.value)
    ensures forall k :: j < k < i ==> !log[k].BootStarted? && !(log[k].Tuned? && log[k].named)
    ensures chip.MT7925? ==>
              exists k :: 0 <= k < i && log[k] == Programmed(log[i].rate) &&
                          forall m :: k < m < i ==> !log[m].BootStarted?
  {
    SafeAt(chip, log, i);
    var before := log[..i];
    j := TunedMeaning(before);
    assert forall k :: 0 <= k < i ==> before[k] == log[k];
    if chip.MT7925? {
      TablesMeaning(before, log[i].rate);
      var k :| 0 <= k < |before| && before[k] == Programmed(log[i].rate) && NoneSince(before, k, true, false, false);
      assert log[k] == Programmed(log[i].rate) && forall m :: k < m < i ==> !log[m].BootStarted?;
    }
  }

  /** Exactly when the last tune before a write had succeeded, on a channel of the write's rate: when
      it named a band. */
  lemma {:induction false} LastTuneExactly(chip: Chip, log: Log, t: nat, i: nat)
    requires Safe(chip, log) && t < i < |log| && log[i].Wrote? && log[t].Tuned?
    requires forall k :: t < k < i ==> !log[k].Tuned?
    ensures log[t].named <==> log[t].result.Some? && Place(log[i].rate, log[t].result.value)
  {
    SafeAt(chip, log, t);
    if log[t].named {
      var j := EveryWrite(chip, log, i);
      assert j == t;
    }
  }

  /** What a failed tune changes: nothing if it named no band, and otherwise every write is barred
      until a later tune succeeds. */
  lemma {:induction false} FailedTuneExactly(chip: Chip, log: Log, named: bool, rate: Rate, power: int, at: int)
    ensures Allowed(chip, log + [Tuned(named, None)], rate, power, at) <==>
            !named && Allowed(chip, log, rate, power, at)
  {
    assert Init(log + [Tuned(named, None)]) == log;
  }

  function CountWrites(log: Log, from: nat): nat
    requires from <= |log|
  {
    if from == |log| then 0 else CountWrites(Init(log), from) + (if Last(log).Wrote? then 1 else 0)
  }

  lemma {:induction false} CountBelow(log: Log, from: nat)
    requires from <= |log| && forall i :: from <= i < |log| ==> !log[i].BootStarted?
    ensures CountWrites(log, from) <= Writes(log)
  {
    if from < |log| {
      CountBelow(Init(log), from);
    }
  }

  lemma {:induction false} WritesBounded(chip: Chip, log: Log)
    requires Safe(chip, log)
    ensures Writes(log) <= MAX_WRITES
  {
    if log != [] {
      WritesBounded(chip, Init(log));
    }
  }

  /** At most sixty writes in any stretch of a run without a bring-up. */
  lemma {:induction false} AtMostSixty(chip: Chip, log: Log, from: nat)
    requires Safe(chip, log) && from <= |log| && forall i :: from <= i < |log| ==> !log[i].BootStarted?
    ensures CountWrites(log, from) <= 60
  {
    CountBelow(log, from);
    WritesBounded(chip, log);
  }

  lemma {:induction false} LastWriteAfter(chip: Chip, log: Log, i: nat)
    requires Safe(chip, log) && i < |log| && log[i].Wrote? && NoneSince(log, i, true, false, false)
    ensures Writes(log) > 0 && LastWrite(log) >= log[i].at
  {
    if i < |log| - 1 {
      assert NoneSince(Init(log), i, true, false, false);
      LastWriteAfter(chip, Init(log), i);
    }
  }

  /** Any two writes of one boot are at least 50 ms apart. */
  lemma {:induction false} WritesApart(chip: Chip, log: Log, i: nat, j: nat)
    requires Safe(chip, log) && i < j < |log| && log[i].Wrote? && log[j].Wrote?
    requires forall k :: i < k < j ==> !log[k].BootStarted?
    ensures log[j].at - log[i].at >= 50000
  {
    SafeAt(chip, log, j);
    LastWriteAfter(chip, log[..j], i);
  }

  // ---------------------------------------------------------------- the device

  /** A probe request of moderate length, a 12-bit sequence number, and a rate and power the chip's
      subset covers. */
  predicate ValidProbe(chip: Chip, frame: Bytes, sequence: nat, rate: Rate, power: int) {
    && 24 <= |frame| <= 512 && frame[..2] == [0x40, 0] && sequence < 0x1000 && Emission(chip, rate, power)
  }

  /** The checks of mt_probe_txwi. */
  method CheckProbe(chip: Chip, frame: Bytes, sequence: nat, rate: Rate, power: int) returns (ok: bool)
    ensures ok <==> ValidProbe(chip, frame, sequence, rate, power)
  {
    if |frame| < 24 || |frame| > 512 || frame[0] != 0x40 || frame[1] != 0 || sequence > 4095 {
      return false;
    }
    if power != 0 && power != -8 && power != -16 && !(chip.MT7925? && power == -32) {
      return false;
    }
    if chip.MT7921? {
      return !((!rate.CCK1? && !rate.OFDM6?) || (rate.CCK1? && power != 0));
    }
    ok := rate.OFDM6? || rate.OFDM54?;
  }

  datatype Poll = Unreadable | Busy | Idle

  /** The table is taken when some poll, of at most a hundred, finds it idle before one fails. */
  predicate Taken(polls: seq<Poll>, k: nat) {
    k < |polls| && k < 100 && polls[k].Idle? && forall i :: 0 <= i < k ==> polls[i].Busy?
  }

  /** mt_probe_rate_table: three writes, then polls. */
  method ProgramTable(writes: seq<bool>, polls: seq<Poll>) returns (done: bool)
    requires |writes| == 3
    ensures done <==> writes == [true, true, true] && exists k: nat :: Taken(polls, k)
  {
    if !writes[0] || !writes[1] || !writes[2] {
      return false;
    }
    var i := 0;
    while i < 100 && i < |polls|
      invariant i <= 100 && i <= |polls| && forall k :: 0 <= k < i ==> polls[k].Busy?
    {
      if polls[i].Unreadable? {
        return false;
      }
      if polls[i].Idle? {
        assert Taken(polls, i);
        return true;
      }
      i := i + 1;
    }
    done := false;
  }

  function BandOf(name: string): Option<nat> {
    if name == "2.4GHz" then Some(0) else if name == "5GHz" then Some(1) else if name == "6GHz" then Some(2) else None
  }

  /** The gate's fields: where the device is tuned, if `tuned`; completed tables; writes this boot
      and the time of the last; and whether tables were touched. */
  datatype Fields = Fields(tuned: bool, tuning: Tuning, rates: set<Rate>, txCount: nat, txDirty: bool, lastTx: int)

  ghost predicate Represents(chip: Chip, log: Log, f: Fields) {
    && f.tuned == TunedTo(log).Some? && (f.tuned ==> TunedTo(log) == Some(f.tuning))
    && f.rates == Tables(log) && f.txCount == Writes(log) && f.lastTx == LastWrite(log) && f.txDirty == Dirty(log)
    && Safe(chip, log)
  }

  /** What each event does to the fields. */
  function Effect(f: Fields, e: Event): Fields {
    match e
    case BootStarted => f.(tuned := false, rates := {}, txCount := 0, lastTx := 0)
    case BootDone => f.(txDirty := false)
    case Tuned(named, result) =>
      if !named then f else if result.None? then f.(tuned := false) else f.(tuned := true, tuning := result.value)
    case Programming(_) => f.(txDirty := true)
    case Programmed(rate) => f.(rates := f.rates + {rate})
    case Wrote(_, _, at) => f.(txCount := f.txCount + 1, lastTx := at)
  }

  lemma {:induction false} EffectRepresents(chip: Chip, log: Log, f: Fields, e: Event)
    requires Represents(chip, log, f) && MayFollow(chip, log, e)
    ensures Represents(chip, log + [e], Effect(f, e))
  {
    assert Init(log + [e]) == log && Last(log + [e]) == e;
  }

  class Device {
    const chip: Chip
    var tuned: bool
    var tuning: Tuning
    var rates: set<Rate>
    var txCount: nat
    var txDirty: bool
    var lastTx: int
    // What was done, for the properties below; the driver keeps no such record.
    var log: Log

    ghost function Now(): Fields
      reads this
    {
      Fields(tuned, tuning, rates, txCount, txDirty, lastTx)
    }

    ghost predicate Valid()
      reads this
    {
      Represents(chip, log, Now())
    }

    constructor (chip: Chip)
      ensures Valid() && this.chip == chip && log == [] && lastTx == 0
    {
      this.chip := chip;
      tuned, tuning, rates, txCount, txDirty, lastTx := false, Tuning(0, 0, 0, 0), {}, 0, false, 0;
      log := [];
    }

    /** Log an event whose effect the fields already show. */
    method Record(ghost before: Fields, e: Event)
      requires Represents(chip, log, before) && Now() == Effect(before, e)
      requires MayFollow(chip, log, e)
      modifies this`log
      ensures Valid() && log == old(log) + [e]
    {
      EffectRepresents(chip, log, before, e);
      log := log + [e];
    }

    /** The state effects of mt7921_bringup; `succeeds` is whether every step did. */
    method Bringup(succeeds: bool) returns (ok: bool)
      requires Valid()
      modifies this
      ensures Valid() && ok == succeeds && lastTx == 0
      ensures log == old(log) + (if ok then [BootStarted, BootDone] else [BootStarted])
    {
      ghost var before := Now();
      tuned, rates, txCount, lastTx := false, {}, 0, 0;
      Record(before, BootStarted);
      if succeeds {
        before := Now();
        txDirty := false;
        Record(before, BootDone);
      }
      ok := succeeds;
    }

    /** mt7921_tune. A missing name is refused before anything is touched, so an earlier tuning
        stands; any other call clears it first. */
    method Tune(name: Option<string>, control: Byte, center: Byte, width: nat, channelOk: bool, snifferOk: bool)
      returns (ok: bool)
      requires Valid()
      modifies this
      ensures Valid() && lastTx == old(lastTx)
      ensures ok <==> TuneOk(chip, name, width, channelOk, snifferOk)
      ensures log == old(log) +
                     [Tuned(name.Some?, if ok then Some(Target(name.value, control, center, width)) else None)]
      ensures tuned <==> ok || (name.None? && old(tuned))
    {
      ghost var before := Now();
      if name.None? {
        Record(before, Tuned(false, None));
        return false;
      }
      tuned := false;
      if width !in {20, 40, 80, 160} {
        Record(before, Tuned(true, None));
        return false;
      }
      var band := 0;
      if name.value == "5GHz" {
        band := 1;
      } else if name.value == "6GHz" {
        band := 2;
      } else if name.value != "2.4GHz" {
        Record(before, Tuned(true, None));
        return false;
      }
      var centerChannel := center;
      if center == 0 {
        centerChannel := control;
      }
      if (chip.MT7921? && !channelOk) || !snifferOk {
        Record(before, Tuned(true, None));
        return false;
      }
      tuned, tuning := true, Tuning(band, control, centerChannel, width);
      Record(before, Tuned(true, Some(tuning)));
      ok := true;
    }

    /** mt_probe_prepare. On MT7921 there is no table to program. */
    method Prepare(rate: Rate, writes: seq<bool>, polls: seq<Poll>) returns (ok: bool)
      requires Valid() && |writes| == 3
      modifies this
      ensures Valid() && lastTx == old(lastTx)
      ensures ok ==> old(tuned) && (chip.MT7925? ==> rate in rates)
      ensures chip.MT7921? || rate.CCK1? || !old(tuned) ==> log == old(log)
      ensures chip.MT7925? && !rate.CCK1? && old(tuned) ==>
                log == old(log) + (if ok then [Programming(rate), Programmed(rate)] else [Programming(rate)])
    {
      if !tuned {
        return false;
      }
      if chip.MT7921? {
        return rate.CCK1? || rate.OFDM6?;
      }
      if rate.CCK1? {
        return false;
      }
      ghost var before := Now();
      txDirty := true;
      Record(before, Programming(rate));
      ok := ProgramTable(writes, polls);
      if ok {
        before := Now();
        rates := rates + {rate};
        Record(before, Programmed(rate));
      }
    }

    /** mt_probe_transmit. The clock is monotonic, so the subtraction does not wrap. A write is
        attempted exactly when the frame is valid and the log allows it. */
    method Transmit(frame: Bytes, sequence: nat, rate: Rate, power: int, now: int) returns (wrote: bool)
      requires Valid() && lastTx <= now
      modifies this
      ensures Valid() && lastTx == (if wrote then now else old(lastTx))
      ensures wrote <==> ValidProbe(chip, frame, sequence, rate, power) && old(Allowed(chip, log, rate, power, now))
      ensures log == old(log) + (if wrote then [Wrote(rate, power, now)] else [])
    {
      if !tuned || tuning.width != 20 || tuning.control != tuning.center || txCount >= 60 {
        return false;
      }
      if rate.CCK1? {
        if tuning.band != 0 || tuning.control != 6 {
          return false;
        }
      } else if tuning.band != 1 || (tuning.control != 36 && tuning.control != 149) {
        return false;
      }
      var valid := CheckProbe(chip, frame, sequence, rate, power);
      if !valid {
        return false;
      }
      if chip.MT7925? && rate !in rates {
        return false;
      }
      if txCount > 0 && now - lastTx < 50000 {
        return false;
      }
      ghost var before := Now();
      txCount := txCount + 1;
      lastTx := now;
      Record(before, Wrote(rate, power, now));
      wrote := true;
    }
  }

  /** Width, band and the device commands of a tune that names a band. MT7925 has no channel-switch
      command. */
  predicate TuneOk(chip: Chip, name: Option<string>, width: nat, channelOk: bool, snifferOk: bool) {
    && name.Some? && (width == 20 || width == 40 || width == 80 || width == 160) && BandOf(name.value).Some?
    && (chip.MT7921? ==> channelOk) && snifferOk
  }

  function Target(name: string, control: Byte, center: Byte, width: nat): Tuning
    requires BandOf(name).Some?
  {
    Tuning(BandOf(name).value, control, if center == 0 then control else center, width)
  }

  // ---------------------------------------------------------------- whole runs

  datatype Call =
    | CallBringup(succeeds: bool)
    | CallTune(name: Option<string>, control: Byte, center: Byte, width: nat, channelOk: bool, snifferOk: bool)
    | CallPrepare(rate: Rate, writes: seq<bool>, polls: seq<Poll>)
    | CallTransmit(frame: Bytes, sequence: nat, txRate: Rate, power: int, now: nat)

  /** Transmit calls read a clock that never runs backwards. */
  ghost predicate Clocked(calls: seq<Call>) {
    forall i, j :: 0 <= i < j < |calls| && calls[i].CallTransmit? && calls[j].CallTransmit? ==>
      calls[i].now <= calls[j].now
  }

  /** Every run is safe. */
  method Run(chip: Chip, calls: seq<Call>) returns (log: Log, dirty: bool)
    requires Clocked(calls)
    requires forall i :: 0 <= i < |calls| && calls[i].CallPrepare? ==> |calls[i].writes| == 3
    ensures Safe(chip, log) && dirty == Dirty(log)
  {
    var device := new Device(chip);
    for i := 0 to |calls|
      invariant device.Valid() && fresh(device) && device.chip == chip
      invariant forall j :: i <= j < |calls| && calls[j].CallTransmit? ==> device.lastTx <= calls[j].now
    {
      match calls[i] {
        case CallBringup(succeeds) =>
          var _ := device.Bringup(succeeds);
        case CallTune(name, control, center, width, channelOk, snifferOk) =>
          var _ := device.Tune(name, control, center, width, channelOk, snifferOk);
        case CallPrepare(rate, writes, polls) =>
          var _ := device.Prepare(rate, writes, polls);
        case CallTransmit(frame, sequence, rate, power, now) =>
          var _ := device.Transmit(frame, sequence, rate, power, now);
      }
    }
    return device.log, device.txDirty;
  }

  /** The exception to "the last tune succeeded": a tune without a name fails, and a frame can still
      be written on the earlier tuning. */
  method NamelessTuneKeepsGateOpen(frame: Bytes) returns (tuneOk: bool, wrote: bool)
    requires ValidProbe(MT7921, frame, 0, OFDM6, 0)
    ensures !tuneOk && wrote
  {
    var device := new Device(MT7921);
    var _ := device.Tune(Some("5GHz"), 36, 36, 20, true, true);
    tuneOk := device.Tune(None, 36, 36, 20, true, true);
    ghost var first, second := Tuned(true, Some(Tuning(1, 36, 36, 20))), Tuned(false, None);
    assert device.log == [first, second];
    assert Init([first, second]) == [first] && Init([first]) == [];
    wrote := device.Transmit(frame, 0, OFDM6, 0, 0);
  }
}
