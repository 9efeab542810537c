/** The event accounting of research/csi_event_summary.py: what the counters and statistics of a
    history of event bodies are, and what they conserve. */
module CsiAccount {
  import opened Wire
  import opened CsiTlv

  // ---------------------------------------------------------------- accounting

  /** collections.Counter. */
  type Counter<!K> = map<K, nat>

  function Count<K>(c: Counter<K>, k: K): nat {
    if k in c then c[k] else 0
  }

  function Bump<K>(c: Counter<K>, k: K): Counter<K> {
    c[k := Count(c, k) + 1]
  }

  // ---------------------------------------------------------------- what one event shows

  /** The names under which metadata are counted. */
  datatype Name = Version | Cbw | Rssi | Snr | Band | DataCount | StoredPairs | Dbw | ChannelIndex
                | RxMode | RxRate | RxIndex | TxIndex | Segment | RemainLast | SnrPinned

  /** A signed byte, the signal in the low octet of its word. */
  function SignedByte(w: nat): int {
    if w % 256 < 128 then w % 256 else w % 256 - 256
  }

  /** The scalars of an event, and the number of stored sample pairs. */
  datatype Readings = Readings(version: nat, cbw: nat, signal: nat, snr: nat, band: nat, count: nat, pairs: nat,
                               dbw: nat, channel: nat, rate: nat, chains: nat, segment: nat, remain: nat)

  function ReadingsOf(fields: seq<Field>): Readings
    requires BadScalar(fields, SCALARS).None?
  {
    Readings(Word(fields, 0), Word(fields, 1), Word(fields, 2), Word(fields, 3), Word(fields, 4), Word(fields, 5),
             |DataOf(fields, 6)| / 2, Word(fields, 8), Word(fields, 9), Word(fields, 12), Word(fields, 18),
             Word(fields, 20), Word(fields, 21))
  }

  /** snr_field_without_offset. */
  function SnrWithoutOffset(version: nat, value: nat): Option<int> {
    if version == 22 && 16 <= value <= 143 then Some(value - 16) else None
  }

  /** The value counted under a name. */
  function ValueOf(r: Readings, name: Name): Option<int> {
    match name
    case Version => Some(r.version)
    case Cbw => Some(r.cbw)
    case Rssi => Some(SignedByte(r.signal))
    case Snr => Some(r.snr % 256)
    case Band => Some(r.band)
    case DataCount => Some(r.count)
    case StoredPairs => Some(r.pairs)
    case Dbw => Some(r.dbw)
    case ChannelIndex => Some(r.channel)
    case RxMode => Some(r.rate % 0x1_0000)
    case RxRate => Some(r.rate / 0x1_0000)
    case RxIndex => Some(r.chains % 0x1_0000)
    case TxIndex => Some(r.chains / 0x1_0000)
    case Segment => Some(r.segment)
    case RemainLast => Some(r.remain)
    case SnrPinned => SnrWithoutOffset(r.version, r.snr)
  }

  /** The samples of both arrays. */
  function Samples(iq: Bytes): (s: seq<int>)
    ensures |s| == |iq| / 2 && forall i :: 0 <= i < |s| ==> s[i] == Sample(iq, i)
  {
    seq(|iq| / 2, i requires 0 <= i < |iq| / 2 => Sample(iq, i))
  }

  /** What a valid event adds to the statistics; the digest of its samples is SHA-256 in the source. */
  datatype Sight = Sight(readings: Readings, rx: nat, digest: Bytes, samples: seq<int>)

  type Digest = Bytes -> Bytes

  function SightOf(digest: Digest, fields: seq<Field>): Sight
    requires BadScalar(fields, SCALARS).None?
  {
    var iq := DataOf(fields, 6) + DataOf(fields, 7);
    Sight(ReadingsOf(fields), Word(fields, 18) % 0x1_0000, digest(iq), Samples(iq))
  }

  // ---------------------------------------------------------------- the statistics

  function Low(samples: seq<int>): (m: int)
    requires samples != []
    ensures m in samples && forall v :: v in samples ==> m <= v
  {
    if |samples| == 1 then samples[0]
    else
      assert samples == [samples[0]] + samples[1..];
      var rest := Low(samples[1..]);
      if samples[0] < rest then samples[0] else rest
  }

  function High(samples: seq<int>): (m: int)
    requires samples != []
    ensures m in samples && forall v :: v in samples ==> v <= m
  {
    if |samples| == 1 then samples[0]
    else
      assert samples == [samples[0]] + samples[1..];
      var rest := High(samples[1..]);
      if samples[0] > rest then samples[0] else rest
  }

  function Nonzero(samples: seq<int>): (n: nat)
    ensures n <= |samples|
  {
    if samples == [] then 0 else Nonzero(samples[1..]) + (if samples[0] != 0 then 1 else 0)
  }

  datatype Stats = Stats(metadata: map<Name, Counter<int>>, fingerprints: set<Bytes>,
                         rxFingerprints: map<nat, set<Bytes>>, rxEvents: Counter<nat>,
                         values: nat, nonzero: nat, lowest: Option<int>, highest: Option<int>)

  const NO_STATS := Stats(map[], {}, map[], map[], 0, 0, None, None)

  function CounterOf(metadata: map<Name, Counter<int>>, name: Name): Counter<int> {
    if name in metadata then metadata[name] else map[]
  }

  function BumpAll(metadata: map<Name, Counter<int>>, r: Readings): map<Name, Counter<int>> {
    map name: Name | name in metadata.Keys || ValueOf(r, name).Some? ::
      if ValueOf(r, name).Some? then Bump(CounterOf(metadata, name), ValueOf(r, name).value) else metadata[name]
  }

  function SetOf(sets: map<nat, set<Bytes>>, k: nat): set<Bytes> {
    if k in sets then sets[k] else {}
  }

  function Smaller(was: Option<int>, v: int): Option<int> {
    if was.None? || v < was.value then Some(v) else was
  }

  function Larger(was: Option<int>, v: int): Option<int> {
    if was.None? || v > was.value then Some(v) else was
  }

  function StatsAdd(s: Stats, e: Sight): Stats
    requires e.samples != []
  {
    Stats(BumpAll(s.metadata, e.readings), s.fingerprints + {e.digest},
          s.rxFingerprints[e.rx := SetOf(s.rxFingerprints, e.rx) + {e.digest}], Bump(s.rxEvents, e.rx),
          s.values + |e.samples|, s.nonzero + Nonzero(e.samples),
          Smaller(s.lowest, Low(e.samples)), Larger(s.highest, High(e.samples)))
  }

  // ---------------------------------------------------------------- the history

  type Shape = seq<(nat, nat)>

  /** Tags and lengths in order. */
  function ShapeOf(fields: seq<Field>): (s: Shape)
    ensures |s| == |fields| && forall i :: 0 <= i < |s| ==> s[i] == (fields[i].tag, |fields[i].data|)
  {
    seq(|fields|, i requires 0 <= i < |fields| => (fields[i].tag, |fields[i].data|))
  }

  /** What a history of event bodies must have been counted as. */
  datatype Tally = Tally(events: nat, invalid: nat, errors: multiset<CsiError>, shapes: Counter<Shape>,
                         padding: Counter<int>, layouts: Counter<Layout>, stats: Stats)

  function TallyOf(digest: Digest, history: seq<Bytes>): Tally {
    if history == [] then Tally(0, 0, multiset{}, map[], map[], map[], NO_STATS)
    else
      var body := history[|history| - 1];
      TallyAdd(digest, TallyOf(digest, history[..|history| - 1]), |body|, Parsed(body))
  }

  function Rejected(t: Tally, e: CsiError): Tally {
    t.(invalid := t.invalid + 1, errors := t.errors + multiset{e})
  }

  function Shaped(t: Tally, size: nat, fields: seq<Field>): Tally {
    t.(padding := Bump(t.padding, size - 8 - EncodedSize(fields)), shapes := Bump(t.shapes, ShapeOf(fields)))
  }

  function EventAdded(t: Tally, layout: Layout, e: Sight): Tally
    requires e.samples != []
  {
    t.(events := t.events + 1, layouts := Bump(t.layouts, layout), stats := StatsAdd(t.stats, e))
  }

  /** Shape and padding are counted before the validation, everything else of an event after it. */
  function TallyAdd(digest: Digest, t: Tally, size: nat, parsed: Parse): Tally {
    match parsed
    case Err(e) => Rejected(t, e)
    case Ok(fields) =>
      match Validate(fields)
      case Invalid(e) => Rejected(Shaped(t, size, fields), e)
      case Valid(layout) =>
        ValidatedSight(digest, fields);
        EventAdded(Shaped(t, size, fields), layout, SightOf(digest, fields))
  }

  lemma {:induction false} ValidatedSight(digest: Digest, fields: seq<Field>)
    requires Validate(fields).Valid?
    ensures BadScalar(fields, SCALARS).None? && SightOf(digest, fields).samples != []
  {
    ValidatedLayout(fields);
    ValidatedUnpacks(fields, 0);
  }

  class CsiSummary {
    const digest: Digest
    var events: nat
    var invalid: nat
    var errors: multiset<CsiError>
    var shapes: Counter<Shape>
    var padding: Counter<int>
    var layouts: Counter<Layout>
    var metadata: map<Name, Counter<int>>
    var fingerprints: set<Bytes>
    var rxFingerprints: map<nat, set<Bytes>>
    var rxEvents: Counter<nat>
    var iqValues: nat
    var iqNonzero: nat
    var iqMin: Option<int>
    var iqMax: Option<int>
    ghost var history: seq<Bytes>

    function Statistics(): Stats
      reads this
    {
      Stats(metadata, fingerprints, rxFingerprints, rxEvents, iqValues, iqNonzero, iqMin, iqMax)
    }

    function Counters(): Tally
      reads this
    {
      Tally(events, invalid, errors, shapes, padding, layouts, Statistics())
    }

    ghost predicate Accounted()
      reads this
    {
      Counters() == TallyOf(digest, history)
    }

    constructor (digest: Digest)
      ensures Accounted() && history == [] && this.digest == digest
    {
      this.digest := digest;
      events, invalid, iqValues, iqNonzero := 0, 0, 0, 0;
      errors, shapes, padding, layouts := multiset{}, map[], map[], map[];
      metadata, fingerprints, rxFingerprints, rxEvents := map[], {}, map[], map[];
      iqMin, iqMax := None, None;
      history := [];
    }

    method Add(body: Bytes)
      requires Accounted()
      modifies this
      ensures Accounted() && history == old(history) + [body]
    {
      TallyStep(digest, history, body);
      history := history + [body];
      var parsed := ParseTlvs(body);
      Account(|body|, parsed);
    }

    /** What add counts once the parser has decided. */
    method Account(size: nat, parsed: Parse)
      modifies this
      ensures Counters() == TallyAdd(digest, old(Counters()), size, parsed) && history == old(history)
    {
      if parsed.Err? {
        Reject(parsed.error);
        return;
      }
      CountShape(size, parsed.fields);
      var checked := ValidateFields(parsed.fields);
      if checked.Invalid? {
        Reject(checked.error);
        return;
      }
      ValidatedSight(digest, parsed.fields);
      CountEvent(checked.layout, SightOf(digest, parsed.fields));
    }

    method CountShape(size: nat, fields: seq<Field>)
      modifies this`shapes, this`padding
      ensures Counters() == Shaped(old(Counters()), size, fields)
    {
      shapes := Bump(shapes, ShapeOf(fields));
      padding := Bump(padding, size - 8 - EncodedSize(fields));
    }

    method Reject(e: CsiError)
      modifies this`invalid, this`errors
      ensures Counters() == Rejected(old(Counters()), e)
    {
      invalid, errors := invalid + 1, errors + multiset{e};
    }

    method CountEvent(layout: Layout, e: Sight)
      requires e.samples != []
      modifies this`events, this`layouts, this`metadata, this`fingerprints, this`rxFingerprints, this`rxEvents
      modifies this`iqValues, this`iqNonzero, this`iqMin, this`iqMax
      ensures Counters() == EventAdded(old(Counters()), layout, e)
    {
      events, layouts := events + 1, Bump(layouts, layout);
      Observe(e);
    }

    method Observe(e: Sight)
      requires e.samples != []
      modifies this`metadata, this`fingerprints, this`rxFingerprints, this`rxEvents
      modifies this`iqValues, this`iqNonzero, this`iqMin, this`iqMax
      ensures Statistics() == StatsAdd(old(Statistics()), e)
    {
      metadata := BumpAll(metadata, e.readings);
      fingerprints := fingerprints + {e.digest};
      CountReceiver(e.rx, e.digest);
      CountSamples(e.samples);
    }

    method CountReceiver(rx: nat, fingerprint: Bytes)
      modifies this`rxFingerprints, this`rxEvents
      ensures rxFingerprints == old(rxFingerprints)[rx := SetOf(old(rxFingerprints), rx) + {fingerprint}]
      ensures rxEvents == Bump(old(rxEvents), rx)
    {
      rxFingerprints := rxFingerprints[rx := SetOf(rxFingerprints, rx) + {fingerprint}];
      rxEvents := Bump(rxEvents, rx);
    }

    method CountSamples(samples: seq<int>)
      requires samples != []
      modifies this`iqValues, this`iqNonzero, this`iqMin, this`iqMax
      ensures iqValues == old(iqValues) + |samples| && iqNonzero == old(iqNonzero) + Nonzero(samples)
      ensures iqMin == Smaller(old(iqMin), Low(samples)) && iqMax == Larger(old(iqMax), High(samples))
    {
      iqValues := iqValues + |samples|;
      iqNonzero := iqNonzero + Nonzero(samples);
      var lo, hi := Low(samples), High(samples);
      iqMin := if iqMin.None? || lo < iqMin.value then Some(lo) else iqMin;
      iqMax := if iqMax.None? || hi > iqMax.value then Some(hi) else iqMax;
    }
  }

  lemma {:induction false} TallyStep(digest: Digest, history: seq<Bytes>, body: Bytes)
    ensures TallyOf(digest, history + [body]) == TallyAdd(digest, TallyOf(digest, history), |body|, Parsed(body))
  {
    assert (history + [body])[..|history|] == history;
  }

  lemma {:induction false} EventsGrow(digest: Digest, t: Tally, size: nat, parsed: Parse)
    ensures var u := TallyAdd(digest, t, size, parsed);
            && u.events + u.invalid == t.events + t.invalid + 1
            && |u.errors| - |t.errors| == u.invalid - t.invalid
            && LayoutTotal(u) - LayoutTotal(t) == u.events - t.events
  {
  }

  lemma {:induction false} PaddingGrows(digest: Digest, t: Tally, size: nat, parsed: Parse)
    requires match parsed
             case Ok(fields) => size - 8 - EncodedSize(fields) in {0, TAIL_LEN}
             case Err(e) => IsParseError(e)
    ensures var u := TallyAdd(digest, t, size, parsed);
            && PaddingTotal(u) + ParseErrorTotal(u) == PaddingTotal(t) + ParseErrorTotal(t) + 1
            && u.padding.Keys <= t.padding.Keys + {0, TAIL_LEN}
  {
    match parsed
    case Err(e) => ErrorAdded(t.errors, e);
    case Ok(fields) =>
      Bumped(t.padding, size - 8 - EncodedSize(fields));
      if Validate(fields).Invalid? {
        ErrorAdded(t.errors, Validate(fields).error);
      }
  }

  lemma {:induction false} Bumped(c: Counter<int>, k: int)
    requires k in {0, TAIL_LEN}
    ensures Count(Bump(c, k), 0) + Count(Bump(c, k), TAIL_LEN) == Count(c, 0) + Count(c, TAIL_LEN) + 1
    ensures Bump(c, k).Keys <= c.Keys + {0, TAIL_LEN}
  {
  }

  function ParseErrors(errors: multiset<CsiError>): nat {
    errors[BodySize] + errors[OuterTlv] + errors[InnerHeader] + errors[OutOfRange] + errors[DuplicateOrTruncated]
  }

  lemma {:induction false} ErrorAdded(errors: multiset<CsiError>, e: CsiError)
    ensures ParseErrors(errors + multiset{e}) == ParseErrors(errors) + (if IsParseError(e) then 1 else 0)
  {
  }

  function LayoutTotal(t: Tally): nat {
    Count(t.layouts, PinnedCck) + Count(t.layouts, CountMatchesStorage)
  }

  function PaddingTotal(t: Tally): nat {
    Count(t.padding, 0) + Count(t.padding, TAIL_LEN)
  }

  predicate IsParseError(e: CsiError) {
    e.BodySize? || e.OuterTlv? || e.InnerHeader? || e.OutOfRange? || e.DuplicateOrTruncated?
  }

  function ParseErrorTotal(t: Tally): nat {
    ParseErrors(t.errors)
  }

  lemma {:induction false} FieldErrors(body: Bytes, pos: nat, fields: seq<Field>)
    requires pos <= |body|
    ensures FieldsFrom(body, pos, fields).Err? ==> IsParseError(FieldsFrom(body, pos, fields).error)
    decreases |body| - pos
  {
    var step := NextStep(body, pos, fields);
    if step.Take? {
      FieldErrors(body, pos + 8 + |step.field.data|, fields + [step.field]);
    }
  }

  lemma {:induction false} ErrorsOfParse(body: Bytes)
    ensures Parsed(body).Err? ==> IsParseError(Parsed(body).error)
  {
    if |body| >= 8 {
      FieldErrors(body, 8, []);
    }
  }

  /** Nothing is lost and nothing is counted twice: every body is one event or one error, and
      each event has one layout. */
  lemma {:induction false} Conservation(digest: Digest, history: seq<Bytes>)
    ensures var t := TallyOf(digest, history);
            t.events + t.invalid == |history| && |t.errors| == t.invalid && LayoutTotal(t) == t.events
  {
    if history != [] {
      var n := |history| - 1;
      Conservation(digest, history[..n]);
      EventsGrow(digest, TallyOf(digest, history[..n]), |history[n]|, Parsed(history[n]));
    }
  }

  /** Every body the parser did not refuse is charged one padding, and no padding other than 0
      and 36 is ever counted. */
  lemma {:induction false} PaddingConservation(digest: Digest, history: seq<Bytes>)
    ensures var t := TallyOf(digest, history);
            PaddingTotal(t) + ParseErrorTotal(t) == |history| && t.padding.Keys <= {0, TAIL_LEN}
  {
    if history != [] {
      var n := |history| - 1;
      PaddingConservation(digest, history[..n]);
      PaddingIsTail(history[n]);
      ErrorsOfParse(history[n]);
      PaddingGrows(digest, TallyOf(digest, history[..n]), |history[n]|, Parsed(history[n]));
    }
  }

  // ---------------------------------------------------------------- what the statistics mean

  /** What the valid events of a history show, in order. */
  function Sights(digest: Digest, history: seq<Bytes>): (es: seq<Sight>)
    ensures forall i :: 0 <= i < |es| ==> es[i].samples != []
  {
    if history == [] then []
    else
      var before, parsed := Sights(digest, history[..|history| - 1]), Parsed(history[|history| - 1]);
      if parsed.Ok? && Validate(parsed.fields).Valid? then
        ValidatedSight(digest, parsed.fields);
        before + [SightOf(digest, parsed.fields)]
      else before
  }

  /** The events with this receiver index. */
  function RxCount(es: seq<Sight>, rx: nat): nat {
    if es == [] then 0 else RxCount(es[..|es| - 1], rx) + (if es[|es| - 1].rx == rx then 1 else 0)
  }

  /** The events with this value of this metadatum. */
  function NameCount(es: seq<Sight>, name: Name, v: int): nat {
    if es == [] then 0
    else
      NameCount(es[..|es| - 1], name, v) + (if ValueOf(es[|es| - 1].readings, name) == Some(v) then 1 else 0)
  }

  /** All samples, in order. */
  function AllSamples(es: seq<Sight>): seq<int> {
    if es == [] then [] else AllSamples(es[..|es| - 1]) + es[|es| - 1].samples
  }

  ghost predicate Showed(es: seq<Sight>, rx: nat, d: Bytes) {
    exists i :: 0 <= i < |es| && es[i].rx == rx && es[i].digest == d
  }

  /** The sets hold exactly the digests that were shown, overall and for each receiver index. */
  ghost predicate Collected(s: Stats, es: seq<Sight>) {
    && (forall d :: d in s.fingerprints <==> exists i :: 0 <= i < |es| && es[i].digest == d)
    && (forall rx, d :: d in SetOf(s.rxFingerprints, rx) <==> Showed(es, rx, d))
  }

  /** The counters count what their names say. */
  ghost predicate CountedUp(s: Stats, es: seq<Sight>) {
    && (forall rx :: Count(s.rxEvents, rx) == RxCount(es, rx))
    && (forall name, v :: Count(CounterOf(s.metadata, name), v) == NameCount(es, name, v))
  }

  /** The distinct payloads are no more than the events, overall and for each receiver index. */
  ghost predicate Bounded(s: Stats, n: nat) {
    && |s.fingerprints| <= n && forall rx :: |SetOf(s.rxFingerprints, rx)| <= Count(s.rxEvents, rx)
  }

  ghost predicate IsLeast(m: Option<int>, samples: seq<int>) {
    if samples == [] then m.None?
    else m.Some? && m.value in samples && forall v :: v in samples ==> m.value <= v
  }

  ghost predicate IsGreatest(m: Option<int>, samples: seq<int>) {
    if samples == [] then m.None?
    else m.Some? && m.value in samples && forall v :: v in samples ==> v <= m.value
  }

  /** Where the samples are not zero. */
  ghost function NonzeroAt(samples: seq<int>): set<nat> {
    set i: nat | i < |samples| && samples[i] != 0
  }

  lemma {:induction false} NonzeroMeaning(samples: seq<int>)
    ensures Nonzero(samples) == |NonzeroAt(samples)|
  {
    if samples == [] {
      assert NonzeroAt(samples) == {};
    } else {
      var n := |samples| - 1;
      var init, last := samples[..n], samples[n];
      NonzeroMeaning(init);
      assert samples == init + [last];
      NonzeroAppend(init, [last]);
      NonzeroOfOne(last);
      assert NonzeroAt(samples) == NonzeroAt(init) + (if last != 0 then {n} else {});
    }
  }

  lemma {:induction false} NonzeroOfOne(v: int)
    ensures Nonzero([v]) == if v != 0 then 1 else 0
  {
    assert [v][1..] == [];
  }

  ghost predicate Sampled(s: Stats, samples: seq<int>) {
    && s.values == |samples| && s.nonzero == |NonzeroAt(samples)|
    && IsLeast(s.lowest, samples) && IsGreatest(s.highest, samples)
  }

  lemma {:induction false} Init(es: seq<Sight>, e: Sight)
    ensures (es + [e])[..|es|] == es
  {
  }

  lemma {:induction false} CollectedGrows(s: Stats, es: seq<Sight>, e: Sight)
    requires Collected(s, es) && e.samples != []
    ensures Collected(StatsAdd(s, e), es + [e])
  {
    var t, fs := StatsAdd(s, e), es + [e];
    forall d
      ensures d in t.fingerprints <==> exists i :: 0 <= i < |fs| && fs[i].digest == d
    {
      DigestGrows(es, e, d);
    }
    forall rx, d
      ensures d in SetOf(t.rxFingerprints, rx) <==> Showed(fs, rx, d)
    {
      ShowedGrows(es, e, rx, d);
    }
  }

  lemma {:induction false} DigestGrows(es: seq<Sight>, e: Sight, d: Bytes)
    ensures var fs := es + [e];
            (exists i :: 0 <= i < |fs| && fs[i].digest == d) <==>
            (exists i :: 0 <= i < |es| && es[i].digest == d) || e.digest == d
  {
    var fs := es + [e];
    if i :| 0 <= i < |es| && es[i].digest == d {
      assert fs[i].digest == d;
    }
    if e.digest == d {
      assert fs[|es|].digest == d;
    }
    if i :| 0 <= i < |fs| && fs[i].digest == d {
      assert i < |es| ==> es[i].digest == d;
    }
  }

  lemma {:induction false} ShowedGrows(es: seq<Sight>, e: Sight, rx: nat, d: Bytes)
    ensures Showed(es + [e], rx, d) <==> Showed(es, rx, d) || (e.rx == rx && e.digest == d)
  {
    var fs := es + [e];
    if i :| 0 <= i < |es| && es[i].rx == rx && es[i].digest == d {
      assert fs[i].rx == rx && fs[i].digest == d;
    }
    if e.rx == rx && e.digest == d {
      assert fs[|es|].rx == rx && fs[|es|].digest == d;
    }
    if i :| 0 <= i < |fs| && fs[i].rx == rx && fs[i].digest == d {
      assert i < |es| ==> es[i].rx == rx && es[i].digest == d;
    }
  }

  lemma {:induction false} CountedGrows(s: Stats, es: seq<Sight>, e: Sight)
    requires CountedUp(s, es) && e.samples != []
    ensures CountedUp(StatsAdd(s, e), es + [e])
  {
    var t := StatsAdd(s, e);
    Init(es, e);
    forall rx
      ensures Count(t.rxEvents, rx) == RxCount(es + [e], rx)
    {
    }
    forall name, v
      ensures Count(CounterOf(t.metadata, name), v) == NameCount(es + [e], name, v)
    {
      NameGrows(s.metadata, e.readings, name, v);
    }
  }

  lemma {:induction false} NameGrows(metadata: map<Name, Counter<int>>, r: Readings, name: Name, v: int)
    ensures Count(CounterOf(BumpAll(metadata, r), name), v) ==
            Count(CounterOf(metadata, name), v) + (if ValueOf(r, name) == Some(v) then 1 else 0)
  {
  }

  lemma {:induction false} BoundedGrows(s: Stats, e: Sight, n: nat)
    requires Bounded(s, n) && e.samples != []
    ensures Bounded(StatsAdd(s, e), n + 1)
  {
    var t := StatsAdd(s, e);
    AtMostOneMore(s.fingerprints, e.digest);
    forall rx
      ensures |SetOf(t.rxFingerprints, rx)| <= Count(t.rxEvents, rx)
    {
      AtMostOneMore(SetOf(s.rxFingerprints, rx), e.digest);
    }
  }

  lemma {:induction false} AtMostOneMore(s: set<Bytes>, d: Bytes)
    ensures |s + {d}| <= |s| + 1
  {
    assert d in s ==> s + {d} == s;
  }

  lemma {:induction false} NonzeroAppend(a: seq<int>, b: seq<int>)
    ensures Nonzero(a + b) == Nonzero(a) + Nonzero(b)
  {
    if a == [] {
      Nil(b);
    } else {
      TailOfConcat(a, b);
      NonzeroAppend(a[1..], b);
    }
  }

  lemma {:induction false} LeastGrows(m: Option<int>, samples: seq<int>, more: seq<int>)
    requires IsLeast(m, samples) && more != []
    ensures IsLeast(Smaller(m, Low(more)), samples + more)
  {
    forall v | v in samples + more
      ensures Smaller(m, Low(more)).value <= v
    {
      assert v in samples || v in more;
    }
  }

  lemma {:induction false} GreatestGrows(m: Option<int>, samples: seq<int>, more: seq<int>)
    requires IsGreatest(m, samples) && more != []
    ensures IsGreatest(Larger(m, High(more)), samples + more)
  {
    forall v | v in samples + more
      ensures v <= Larger(m, High(more)).value
    {
      assert v in samples || v in more;
    }
  }

  lemma {:induction false} SampledGrows(s: Stats, samples: seq<int>, e: Sight)
    requires Sampled(s, samples) && e.samples != []
    ensures Sampled(StatsAdd(s, e), samples + e.samples)
  {
    NonzeroMeaning(samples);
    NonzeroMeaning(samples + e.samples);
    NonzeroAppend(samples, e.samples);
    LeastGrows(s.lowest, samples, e.samples);
    GreatestGrows(s.highest, samples, e.samples);
  }

  /** After any history the statistics are those of its valid events: each digest set holds exactly what
      was shown, each counter counts the events with its key, distinct payloads never exceed events, and
      the extremes are those of all samples. */
  lemma {:induction false} StatisticsMeaning(digest: Digest, history: seq<Bytes>)
    ensures var t, es := TallyOf(digest, history), Sights(digest, history);
            && t.events == |es| && Collected(t.stats, es) && CountedUp(t.stats, es) && Bounded(t.stats, t.events)
            && Sampled(t.stats, AllSamples(es))
  {
    if history != [] {
      var n := |history| - 1;
      StatisticsMeaning(digest, history[..n]);
      var parsed := Parsed(history[n]);
      if parsed.Ok? && Validate(parsed.fields).Valid? {
        ValidatedSight(digest, parsed.fields);
        SightAdded(TallyOf(digest, history[..n]).stats, Sights(digest, history[..n]), SightOf(digest, parsed.fields));
      }
    }
  }

  lemma {:induction false} SightAdded(s: Stats, es: seq<Sight>, e: Sight)
    requires Collected(s, es) && CountedUp(s, es) && Bounded(s, |es|) && Sampled(s, AllSamples(es)) && e.samples != []
    ensures var t := StatsAdd(s, e);
            && Collected(t, es + [e]) && CountedUp(t, es + [e]) && Bounded(t, |es| + 1)
            && Sampled(t, AllSamples(es + [e]))
  {
    CollectedGrows(s, es, e);
    CountedGrows(s, es, e);
    BoundedGrows(s, e, |es|);
    SampledGrows(s, AllSamples(es), e);
    Init(es, e);
  }

  /** The bodies of a history that parse to this shape, valid or not. */
  function ShapeCount(history: seq<Bytes>, shape: Shape): nat {
    if history == [] then 0
    else
      var parsed := Parsed(history[|history| - 1]);
      ShapeCount(history[..|history| - 1], shape) + (if parsed.Ok? && ShapeOf(parsed.fields) == shape then 1 else 0)
  }

  lemma {:induction false} ShapesMeaning(digest: Digest, history: seq<Bytes>, shape: Shape)
    ensures Count(TallyOf(digest, history).shapes, shape) == ShapeCount(history, shape)
  {
    if history != [] {
      ShapesMeaning(digest, history[..|history| - 1], shape);
    }
  }
}
