/** CSI event bodies put together reading by reading, by the tags of gl_csi.h, and what the summary of
    research/csi_event_summary.py makes of them. */
module CsiWriter {
  import opened Wire
  import opened CsiTlv
  import opened CsiAccount

  /** What an event reports. Samples are signed 16-bit; `signal` is a signed octet. */
  datatype Event = Event(version: nat, cbw: nat, signal: int, signalHigh: nat, snr: nat, snrHigh: nat, band: nat,
                         count: nat, i: seq<int>, q: seq<int>, dbw: nat, channel: nat, transmitter: Bytes,
                         rxMode: nat, rxRate: nat, rxIndex: nat, txIndex: nat, segment: nat, remain: nat)

  ghost predicate Short(s: seq<int>) {
    forall k :: 0 <= k < |s| ==> -32768 <= s[k] <= 32767
  }

  ghost predicate ValidEvent(e: Event) {
    && e.version < U32_LIMIT && e.cbw < U32_LIMIT && -128 <= e.signal < 128 && e.signalHigh < 0x100_0000
    && e.snr < 256 && e.snrHigh < 0x100_0000 && e.band < U32_LIMIT && e.count < U32_LIMIT
    && Short(e.i) && Short(e.q) && e.dbw < U32_LIMIT && e.channel < U32_LIMIT && |e.transmitter| == 8
    && e.rxMode < 0x1_0000 && e.rxRate < 0x1_0000 && e.rxIndex < 0x1_0000 && e.txIndex < 0x1_0000
    && e.segment < U32_LIMIT && e.remain < U32_LIMIT
  }

  function PutSample(v: int): (b: Bytes)
    requires -32768 <= v <= 32767
    ensures |b| == 2
  {
    PutLe16(if v < 0 then v + 65536 else v)
  }

  function PutSamples(s: seq<int>): (b: Bytes)
    requires Short(s)
    ensures |b| == 2 * |s|
  {
    if s == [] then [] else PutSample(s[0]) + PutSamples(s[1..])
  }

  /** The little-endian word of each scalar tag. */
  function WordFor(e: Event, tag: nat): (w: Option<nat>)
    requires ValidEvent(e)
    ensures w.Some? ==> w.value < U32_LIMIT
  {
    match tag
    case 0 => Some(e.version)
    case 1 => Some(e.cbw)
    case 2 => Some((if e.signal < 0 then e.signal + 256 else e.signal) + 256 * e.signalHigh)
    case 3 => Some(e.snr + 256 * e.snrHigh)
    case 4 => Some(e.band)
    case 5 => Some(e.count)
    case 8 => Some(e.dbw)
    case 9 => Some(e.channel)
    case 12 => Some(e.rxMode + 0x1_0000 * e.rxRate)
    case 18 => Some(e.rxIndex + 0x1_0000 * e.txIndex)
    case 20 => Some(e.segment)
    case 21 => Some(e.remain)
    case _ => None
  }

  function DataFor(e: Event, tag: nat): Option<Bytes>
    requires ValidEvent(e)
  {
    match tag
    case 6 => Some(PutSamples(e.i))
    case 7 => Some(PutSamples(e.q))
    case 10 => Some(e.transmitter)
    case _ => match WordFor(e, tag) { case None => None case Some(w) => Some(PutLe32(w)) }
  }

  /** The fields of the event, in any order and with any others between them. */
  ghost predicate Carries(fields: seq<Field>, e: Event) {
    && ValidEvent(e) && WellFormed(fields)
    && forall tag :: DataFor(e, tag).Some? ==> Field(tag, DataFor(e, tag).value) in fields
  }

  // ---------------------------------------------------------------- reading the fields back

  lemma {:induction false} FieldFound(used: set<nat>, fields: seq<Field>, f: Field)
    requires Fresh(used, fields) && f in fields
    ensures DataOf(fields, f.tag) == f.data && f.tag !in used
    decreases |fields|
  {
    if f != fields[0] {
      FieldFound(used + {fields[0].tag}, fields[1..], f);
    }
  }

  lemma {:induction false} DataFound(fields: seq<Field>, e: Event, tag: nat)
    requires Carries(fields, e) && DataFor(e, tag).Some?
    ensures DataOf(fields, tag) == DataFor(e, tag).value
  {
    FieldFound({}, fields, Field(tag, DataFor(e, tag).value));
  }

  lemma {:induction false} NoneBad(fields: seq<Field>, tags: seq<nat>)
    requires forall tag :: tag in tags ==> |DataOf(fields, tag)| == 4
    ensures BadScalar(fields, tags).None?
  {
    if tags != [] {
      NoneBad(fields, tags[1..]);
    }
  }

  lemma {:induction false} ScalarsFound(fields: seq<Field>, e: Event)
    requires Carries(fields, e)
    ensures BadScalar(fields, SCALARS).None?
  {
    forall tag | tag in SCALARS
      ensures |DataOf(fields, tag)| == 4
    {
      assert tag in {0, 1, 2, 3, 4, 5, 8, 9, 12, 18, 20, 21};
      DataFound(fields, e, tag);
    }
    NoneBad(fields, SCALARS);
  }

  lemma {:induction false} WordFound(fields: seq<Field>, e: Event, tag: nat)
    requires Carries(fields, e) && tag in SCALARS
    ensures BadScalar(fields, SCALARS).None? && WordFor(e, tag) == Some(Word(fields, tag))
  {
    ScalarsFound(fields, e);
    DataFound(fields, e, tag);
  }

  lemma {:induction false} SampleFound(s: seq<int>, k: nat)
    requires Short(s) && k < |s|
    ensures Sample(PutSamples(s), k) == s[k]
  {
    var b := PutSamples(s);
    if k == 0 {
      assert b[0] == PutSample(s[0])[0] && b[1] == PutSample(s[0])[1];
    } else {
      SampleFound(s[1..], k - 1);
      assert b[2 * k] == PutSamples(s[1..])[2 * (k - 1)] && b[2 * k + 1] == PutSamples(s[1..])[2 * (k - 1) + 1];
    }
  }

  lemma {:induction false} SamplesJoin(a: seq<int>, b: seq<int>)
    requires Short(a) && Short(b)
    ensures Short(a + b) && PutSamples(a + b) == PutSamples(a) + PutSamples(b)
  {
    if a == [] {
      Nil(b);
      Nil(PutSamples(b));
    } else {
      TailOfConcat(a, b);
      SamplesJoin(a[1..], b);
      Assoc(PutSample(a[0]), PutSamples(a[1..]), PutSamples(b));
    }
  }

  lemma {:induction false} SamplesFound(s: seq<int>)
    requires Short(s)
    ensures Samples(PutSamples(s)) == s
  {
    forall k | 0 <= k < |s|
      ensures Sample(PutSamples(s), k) == s[k]
    {
      SampleFound(s, k);
    }
  }

  // ---------------------------------------------------------------- what is counted of an event

  /** The value counted under each name. */
  function Shown(e: Event, name: Name): Option<int> {
    match name
    case Version => Some(e.version)
    case Cbw => Some(e.cbw)
    case Rssi => Some(e.signal)
    case Snr => Some(e.snr)
    case Band => Some(e.band)
    case DataCount => Some(e.count)
    case StoredPairs => Some(|e.i|)
    case Dbw => Some(e.dbw)
    case ChannelIndex => Some(e.channel)
    case RxMode => Some(e.rxMode)
    case RxRate => Some(e.rxRate)
    case RxIndex => Some(e.rxIndex)
    case TxIndex => Some(e.txIndex)
    case Segment => Some(e.segment)
    case RemainLast => Some(e.remain)
    case SnrPinned => if e.version == 22 && e.snrHigh == 0 && 16 <= e.snr <= 143 then Some(e.snr - 16) else None
  }

  /** The words as they are stored. */
  ghost predicate WordsAre(r: Readings, e: Event) {
    LowWordsAre(r, e) && HighWordsAre(r, e)
  }

  ghost predicate LowWordsAre(r: Readings, e: Event) {
    && r.version == e.version && r.cbw == e.cbw && r.band == e.band && r.count == e.count && r.pairs == |e.i|
    && r.signal == (if e.signal < 0 then e.signal + 256 else e.signal) + 256 * e.signalHigh
    && r.snr == e.snr + 256 * e.snrHigh
  }

  ghost predicate HighWordsAre(r: Readings, e: Event) {
    && r.dbw == e.dbw && r.channel == e.channel && r.rate == e.rxMode + 0x1_0000 * e.rxRate
    && r.chains == e.rxIndex + 0x1_0000 * e.txIndex && r.segment == e.segment && r.remain == e.remain
  }

  ghost predicate AllFound(fields: seq<Field>, e: Event) {
    && ValidEvent(e) && BadScalar(fields, SCALARS).None? && DataOf(fields, 6) == PutSamples(e.i)
    && forall tag :: tag in SCALARS ==> WordFor(e, tag) == Some(Word(fields, tag))
  }

  lemma {:induction false} LowWords(fields: seq<Field>, e: Event)
    requires AllFound(fields, e)
    ensures LowWordsAre(ReadingsOf(fields), e)
  {
  }

  lemma {:induction false} HighWords(fields: seq<Field>, e: Event)
    requires AllFound(fields, e)
    ensures HighWordsAre(ReadingsOf(fields), e)
  {
  }

  lemma {:induction false} ReadingsFound(fields: seq<Field>, e: Event)
    requires Carries(fields, e)
    ensures BadScalar(fields, SCALARS).None? && WordsAre(ReadingsOf(fields), e)
  {
    ScalarsFound(fields, e);
    forall tag | tag in SCALARS
      ensures WordFor(e, tag) == Some(Word(fields, tag))
    {
      WordFound(fields, e, tag);
    }
    DataFound(fields, e, 6);
    LowWords(fields, e);
    HighWords(fields, e);
  }

  lemma {:induction false} ShownAs(r: Readings, e: Event, name: Name)
    requires ValidEvent(e) && WordsAre(r, e)
    ensures ValueOf(r, name) == Shown(e, name)
  {
    Digit(e.rxMode, e.rxRate, 0x1_0000);
    Digit(e.rxIndex, e.txIndex, 0x1_0000);
    Digit(if e.signal < 0 then e.signal + 256 else e.signal, e.signalHigh, 256);
    Digit(e.snr, e.snrHigh, 256);
  }

  /** Of an event this is what the summary sees: every reading under its name, the receiver's index, and
      the samples of both arrays, with the digest of their octets. */
  lemma {:induction false} SightFound(digest: Digest, fields: seq<Field>, e: Event)
    requires Carries(fields, e)
    ensures BadScalar(fields, SCALARS).None?
    ensures var s := SightOf(digest, fields);
            && (forall name :: ValueOf(s.readings, name) == Shown(e, name)) && s.rx == e.rxIndex
            && s.samples == e.i + e.q && s.digest == digest(PutSamples(e.i) + PutSamples(e.q))
  {
    ReadingsFound(fields, e);
    forall name
      ensures ValueOf(ReadingsOf(fields), name) == Shown(e, name)
    {
      ShownAs(ReadingsOf(fields), e, name);
    }
    Digit(e.rxIndex, e.txIndex, 0x1_0000);
    DataFound(fields, e, 6);
    DataFound(fields, e, 7);
    SamplesJoin(e.i, e.q);
    SamplesFound(e.i + e.q);
  }

  // ---------------------------------------------------------------- which events are valid

  predicate FourteenBits(s: seq<int>) {
    forall k :: 0 <= k < |s| ==> -0x2000 <= s[k] < 0x2000
  }

  /** Report 22 of a CCK frame stores 64 pairs and counts 13; every other event counts what it stores. */
  function Verdict(e: Event): Checked {
    if e.version == 22 && e.cbw == 6 && e.rxMode == 0 then
      if e.count != 13 || e.dbw != 0 || |e.i| != 64 || |e.q| != 64 then Invalid(CckDimensions)
      else if FourteenBits(e.i) && FourteenBits(e.q) then Valid(PinnedCck)
      else Invalid(CckStorage)
    else if e.count == 0 || e.count > 1024 || |e.i| != e.count || |e.q| != e.count then Invalid(IqDimensions)
    else Valid(CountMatchesStorage)
  }

  lemma {:induction false} FourteenFound(s: seq<int>)
    requires Short(s)
    ensures Signed14(PutSamples(s)) == FourteenBits(s)
  {
    forall k | 0 <= k < |s|
      ensures Sample(PutSamples(s), k) == s[k]
    {
      SampleFound(s, k);
    }
  }

  lemma {:induction false} VerdictFound(fields: seq<Field>, e: Event)
    requires Carries(fields, e)
    ensures Validate(fields) == Verdict(e)
  {
    ReadingsFound(fields, e);
    Digit(e.rxMode, e.rxRate, 0x1_0000);
    DataFound(fields, e, 6);
    DataFound(fields, e, 7);
    DataFound(fields, e, 10);
    FourteenFound(e.i);
    FourteenFound(e.q);
  }

  // ---------------------------------------------------------------- whole histories

  ghost predicate BodyOf(body: Bytes, e: Event) {
    exists fields :: IsEncoding(body, fields) && Carries(fields, e)
  }

  /** Every body is that of an event. */
  ghost predicate Bodies(history: seq<Bytes>, events: seq<Event>) {
    |history| == |events| && forall k :: 0 <= k < |history| ==> BodyOf(history[k], events[k])
  }

  /** What one body contributes. */
  lemma {:induction false} BodyRead(digest: Digest, body: Bytes, e: Event)
    requires BodyOf(body, e)
    ensures Parsed(body).Ok? && Validate(Parsed(body).fields) == Verdict(e)
    ensures BadScalar(Parsed(body).fields, SCALARS).None?
    ensures var s := SightOf(digest, Parsed(body).fields);
            s.samples == e.i + e.q && forall name :: ValueOf(s.readings, name) == Shown(e, name)
  {
    var fields :| IsEncoding(body, fields) && Carries(fields, e);
    AcceptsExactlyEncodings(body, fields);
    VerdictFound(fields, e);
    SightFound(digest, fields, e);
  }

  /** The valid events with this value under this name. */
  function ShownCount(events: seq<Event>, name: Name, v: int): nat {
    if events == [] then 0
    else
      var n := |events| - 1;
      ShownCount(events[..n], name, v) +
      (if Verdict(events[n]).Valid? && Shown(events[n], name) == Some(v) then 1 else 0)
  }

  /** The samples of all valid events. */
  function SamplesOf(events: seq<Event>): seq<int> {
    if events == [] then []
    else
      var n := |events| - 1;
      SamplesOf(events[..n]) + (if Verdict(events[n]).Valid? then events[n].i + events[n].q else [])
  }

  /** A valid event adds what it shows, any other nothing. */
  ghost predicate Follows(before: seq<Sight>, es: seq<Sight>, e: Event) {
    if !Verdict(e).Valid? then es == before
    else
      && |es| == |before| + 1 && es[..|before|] == before && es[|before|].samples == e.i + e.q
      && forall name :: ValueOf(es[|before|].readings, name) == Shown(e, name)
  }

  lemma {:induction false} SightsFollow(digest: Digest, history: seq<Bytes>, e: Event)
    requires history != [] && BodyOf(history[|history| - 1], e)
    ensures Follows(Sights(digest, history[..|history| - 1]), Sights(digest, history), e)
  {
    BodyRead(digest, history[|history| - 1], e);
  }

  /** What is seen after each event, from nothing on. */
  ghost predicate Trail(trail: seq<seq<Sight>>, events: seq<Event>) {
    && |trail| == |events| + 1 && trail[0] == []
    && forall k :: 0 <= k < |events| ==> Follows(trail[k], trail[k + 1], events[k])
  }

  lemma {:induction false} TrailOf(digest: Digest, history: seq<Bytes>, events: seq<Event>)
    returns (trail: seq<seq<Sight>>)
    requires Bodies(history, events)
    ensures Trail(trail, events) && trail[|events|] == Sights(digest, history)
  {
    trail := seq(|events| + 1, k requires 0 <= k <= |events| => Sights(digest, history[..k]));
    forall k | 0 <= k < |events|
      ensures Follows(trail[k], trail[k + 1], events[k])
    {
      assert history[..k + 1][..k] == history[..k];
      SightsFollow(digest, history[..k + 1], events[k]);
    }
    assert history[..|events|] == history;
  }

  lemma {:induction false} FollowsGrow(before: seq<Sight>, es: seq<Sight>, e: Event, name: Name, v: int)
    requires Follows(before, es, e)
    ensures NameCount(es, name, v) ==
            NameCount(before, name, v) + (if Verdict(e).Valid? && Shown(e, name) == Some(v) then 1 else 0)
    ensures AllSamples(es) == AllSamples(before) + (if Verdict(e).Valid? then e.i + e.q else [])
  {
    Nil(AllSamples(before));
  }

  lemma {:induction false} ShownStep(events: seq<Event>, k: nat, name: Name, v: int)
    requires k < |events|
    ensures ShownCount(events[..k + 1], name, v) == ShownCount(events[..k], name, v) +
              (if Verdict(events[k]).Valid? && Shown(events[k], name) == Some(v) then 1 else 0)
    ensures SamplesOf(events[..k + 1]) ==
            SamplesOf(events[..k]) + (if Verdict(events[k]).Valid? then events[k].i + events[k].q else [])
  {
    assert events[..k + 1][..k] == events[..k];
  }

  lemma {:induction false} TrailCounts(trail: seq<seq<Sight>>, events: seq<Event>, name: Name, v: int, k: nat)
    requires Trail(trail, events) && k <= |events|
    ensures NameCount(trail[k], name, v) == ShownCount(events[..k], name, v)
    ensures AllSamples(trail[k]) == SamplesOf(events[..k])
  {
    if k > 0 {
      TrailCounts(trail, events, name, v, k - 1);
      ShownStep(events, k - 1, name, v);
      FollowsGrow(trail[k - 1], trail[k], events[k - 1], name, v);
    }
  }

  /** From the octets of a history of events to its summary: under each name the counter holds the number
      of valid events that reported the value, and the sample statistics are those of their samples. */
  lemma {:induction false} SummaryOfEvents(digest: Digest, history: seq<Bytes>, events: seq<Event>, name: Name, v: int)
    requires Bodies(history, events)
    ensures var stats := TallyOf(digest, history).stats;
            && Count(CounterOf(stats.metadata, name), v) == ShownCount(events, name, v)
            && Sampled(stats, SamplesOf(events))
  {
    var trail := TrailOf(digest, history, events);
    TrailCounts(trail, events, name, v, |events|);
    assert events[..|events|] == events;
    StatisticsMeaning(digest, history);
  }
}
