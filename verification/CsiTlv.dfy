/** The strict CSI event parser (research/csi_event_summary.py): acceptance characterised by an
    encoder, and the event accounting built on it. */
module CsiTlv {
  import opened Wire

  const MIN_BODY: nat := 8
  const MAX_BODY: nat := 8192
  const MAX_TAG: nat := 63
  const MAX_FIELDS: nat := 64
  const TAIL_LEN: nat := 36
  const TAIL_TAG: nat := 25

  datatype Field = Field(tag: nat, data: Bytes)

  datatype CsiError = BodySize | OuterTlv | InnerHeader | OutOfRange | DuplicateOrTruncated
                    | ScalarSize(tag: nat) | CckDimensions | CckStorage | IqDimensions | TransmitterSize

  /** The ordered dict of accepted fields, or the reason for refusal. */
  datatype Parse = Ok(fields: seq<Field>) | Err(error: CsiError)

  // ---------------------------------------------------------------- parser

  /** The keys of the dict. */
  function Tags(fields: seq<Field>): set<nat> {
    if fields == [] then {} else Tags(fields[..|fields| - 1]) + {fields[|fields| - 1].tag}
  }

  lemma {:induction false} TagsGrow(fields: seq<Field>, f: Field)
    ensures Tags(fields + [f]) == Tags(fields) + {f.tag}
  {
    assert (fields + [f])[..|fields|] == fields;
  }

  /** The measured terminal padding: exactly 36 zero octets after a 4-octet field 25. */
  predicate AllZero(b: Bytes) {
    forall i :: 0 <= i < |b| ==> b[i] == 0
  }

  predicate EndsWithTailTag(fields: seq<Field>) {
    fields != [] && fields[|fields| - 1].tag == TAIL_TAG && |fields[|fields| - 1].data| == 4
  }

  predicate AtTail(body: Bytes, pos: nat, fields: seq<Field>)
    requires pos <= |body|
  {
    |body| - pos == TAIL_LEN && EndsWithTailTag(fields) && AllZero(body[pos..])
  }

  datatype Step = Stop | Refuse(error: CsiError) | Take(field: Field)

  /** What the loop does at `pos`. */
  function NextStep(body: Bytes, pos: nat, fields: seq<Field>): (s: Step)
    requires pos <= |body|
    ensures s.Take? ==> pos + 8 + |s.field.data| <= |body|
  {
    if pos == |body| || AtTail(body, pos, fields) then Stop
    else if |fields| >= MAX_FIELDS || |body| - pos < 8 then Refuse(InnerHeader)
    else
      var tag, length := Le32(body, pos), Le32(body, pos + 4);
      if tag > MAX_TAG || length > MAX_BODY then Refuse(OutOfRange)
      else if tag in Tags(fields) || length > |body| - pos - 8 then Refuse(DuplicateOrTruncated)
      else Take(Field(tag, body[pos + 8..pos + 8 + length]))
  }

  function FieldsFrom(body: Bytes, pos: nat, fields: seq<Field>): Parse
    requires pos <= |body|
    decreases |body| - pos
  {
    match NextStep(body, pos, fields)
    case Stop => Ok(fields)
    case Refuse(e) => Err(e)
    case Take(f) => FieldsFrom(body, pos + 8 + |f.data|, fields + [f])
  }

  function Parsed(body: Bytes): Parse {
    if !(MIN_BODY <= |body| <= MAX_BODY) then Err(BodySize)
    else if Le16(body, 4) != 0 || Le16(body, 6) != |body| - 4 then Err(OuterTlv)
    else FieldsFrom(body, 8, [])
  }

  method ParseTlvs(body: Bytes) returns (r: Parse)
    ensures r == Parsed(body)
  {
    if !(8 <= |body| <= 8192) {
      return Err(BodySize);
    }
    if Le16(body, 4) != 0 || Le16(body, 6) != |body| - 4 {
      return Err(OuterTlv);
    }
    var fields: seq<Field> := [];
    var pos := 8;
    while pos < |body|
      invariant 8 <= pos <= |body|
      invariant FieldsFrom(body, 8, []) == FieldsFrom(body, pos, fields)
      decreases |body| - pos
    {
      if |body| - pos == 36 && fields != [] && fields[|fields| - 1].tag == 25 && |fields[|fields| - 1].data| == 4 &&
         AllZero(body[pos..])
      {
        break;
      }
      if |fields| >= 64 || |body| - pos < 8 {
        return Err(InnerHeader);
      }
      var tag, length := Le32(body, pos), Le32(body, pos + 4);
      if tag > 63 || length > 8192 {
        return Err(OutOfRange);
      }
      if tag in Tags(fields) || length > |body| - pos - 8 {
        return Err(DuplicateOrTruncated);
      }
      fields := fields + [Field(tag, body[pos + 8..pos + 8 + length])];
      pos := pos + 8 + length;
    }
    return Ok(fields);
  }

  // ---------------------------------------------------------------- encoder

  /** Fields that fit the limits and use neither a tag of `used` nor the same tag twice. */
  predicate Fresh(used: set<nat>, fields: seq<Field>)
    decreases |fields|
  {
    fields == [] ||
    (fields[0].tag <= MAX_TAG && |fields[0].data| <= MAX_BODY && fields[0].tag !in used &&
     Fresh(used + {fields[0].tag}, fields[1..]))
  }

  predicate WellFormed(fields: seq<Field>): (w: bool)
    ensures w ==> Encodable(fields)
  {
    var w := Fresh({}, fields);
    if w then FreshEncodable({}, fields); true else false
  }

  lemma {:induction false} FreshMeaning(used: set<nat>, fields: seq<Field>)
    ensures Fresh(used, fields) <==>
            && (forall i :: 0 <= i < |fields| ==> fields[i].tag < 64 && |fields[i].data| <= 8192 &&
                                                  fields[i].tag !in used)
            && (forall i, j :: 0 <= i < j < |fields| ==> fields[i].tag != fields[j].tag)
    decreases |fields|
  {
    if fields != [] {
      var f, rest := fields[0], fields[1..];
      FreshMeaning(used + {f.tag}, rest);
      assert forall i :: 1 <= i < |fields| ==> fields[i] == rest[i - 1];
    }
  }

  function EncodeField(f: Field): Bytes
    requires f.tag < U32_LIMIT && |f.data| < U32_LIMIT
  {
    PutLe32(f.tag) + PutLe32(|f.data|) + f.data
  }

  predicate Encodable(fields: seq<Field>) {
    fields == [] || (fields[0].tag < U32_LIMIT && |fields[0].data| < U32_LIMIT && Encodable(fields[1..]))
  }

  lemma {:induction false} FreshEncodable(used: set<nat>, fields: seq<Field>)
    requires Fresh(used, fields)
    ensures Encodable(fields)
    decreases |fields|
  {
    if fields != [] {
      FreshEncodable(used + {fields[0].tag}, fields[1..]);
    }
  }

  function EncodeFields(fields: seq<Field>): Bytes
    requires Encodable(fields)
  {
    if fields == [] then [] else EncodeField(fields[0]) + EncodeFields(fields[1..])
  }

  /** `body` is an outer header followed by `fields` and a permitted tail. */
  ghost predicate IsEncoding(body: Bytes, fields: seq<Field>) {
    && 8 <= |body| <= 8192
    && Le16(body, 4) == 0 && Le16(body, 6) == |body| - 4
    && WellFormed(fields)
    && (body[8..] == EncodeFields(fields) ||
        (EndsWithTailTag(fields) && body[8..] == EncodeFields(fields) + Zeros(TAIL_LEN)))
  }

  lemma {:induction false} HeaderAt(body: Bytes, pos: nat, f: Field, rest: Bytes)
    requires f.tag < U32_LIMIT && |f.data| < U32_LIMIT
    requires pos <= |body| && body[pos..] == EncodeField(f) + rest
    ensures var next := pos + 8 + |f.data|;
            && next <= |body|
            && Le32(body, pos) == f.tag && Le32(body, pos + 4) == |f.data|
            && body[pos + 8..next] == f.data && body[next..] == rest
  {
    var here, t, n := body[pos..], PutLe32(f.tag), PutLe32(|f.data|);
    assert body[pos..pos + 4] == here[0..4] == t[0..4];
    assert body[pos + 4..pos + 8] == here[4..8] == n[0..4];
    LeAgree(body, pos, t, 0, 4);
    LeAgree(body, pos + 4, n, 0, 4);
    var next := pos + 8 + |f.data|;
    assert body[pos + 8..next] == here[8..8 + |f.data|] == f.data;
    assert body[next..] == here[8 + |f.data|..] == rest;
  }

  // ---------------------------------------------------------------- the tail is unambiguous

  /** 36 zero octets never start a list of distinct fields: the first would be an empty field 0,
      and so would the second. */
  lemma {:induction false} ZerosAreNoFields(used: set<nat>, fields: seq<Field>, rest: Bytes)
    requires Encodable(fields) && Fresh(used, fields) && fields != []
    requires rest == [] || rest == Zeros(TAIL_LEN)
    ensures !(|EncodeFields(fields) + rest| == TAIL_LEN && AllZero(EncodeFields(fields) + rest))
  {
    var z := EncodeFields(fields) + rest;
    if |z| == TAIL_LEN && AllZero(z) {
      Assoc(EncodeField(fields[0]), EncodeFields(fields[1..]), rest);
      assert z[0..] == z;
      HeaderAt(z, 0, fields[0], EncodeFields(fields[1..]) + rest);
      LeZero(z, 0, 4);
      LeZero(z, 4, 4);
      LeZero(z, 8, 4);
      if |fields| > 1 {
        SecondTag(z, used, fields, rest);
      }
    }
  }

  lemma {:induction false} LeZero(b: Bytes, at: nat, n: nat)
    requires at + n <= |b| && AllZero(b)
    ensures Le(b, at, n) == 0
    decreases n
  {
    if n > 0 {
      LeZero(b, at + 1, n - 1);
    }
  }

  lemma {:induction false} SecondTag(z: Bytes, used: set<nat>, fields: seq<Field>, rest: Bytes)
    requires Encodable(fields) && Fresh(used, fields) && |fields| > 1 && |fields[0].data| == 0
    requires |z| >= 8 && z[8..] == EncodeFields(fields[1..]) + rest
    ensures |z| >= 12 && Le32(z, 8) != fields[0].tag
  {
    Assoc(EncodeField(fields[1]), EncodeFields(fields[1..][1..]), rest);
    HeaderAt(z, 8, fields[1], EncodeFields(fields[1..][1..]) + rest);
  }

  // ---------------------------------------------------------------- completeness

  predicate InRange(tags: set<nat>) {
    forall t :: t in tags ==> t <= MAX_TAG
  }

  /** Pigeonhole: distinct tags in range leave no room for a 65th field. */
  lemma {:induction false} TagCount(used: set<nat>, fields: seq<Field>)
    requires InRange(used) && Fresh(used, fields)
    ensures |used| + |fields| <= MAX_FIELDS
    decreases |fields|
  {
    if fields == [] {
      BelowSize(used, MAX_FIELDS);
    } else {
      TagCount(used + {fields[0].tag}, fields[1..]);
    }
  }

  lemma {:induction false} BelowSize(s: set<nat>, n: nat)
    requires forall t :: t in s ==> t < n
    ensures |s| <= n
  {
    if n > 0 {
      BelowSize(s - {n - 1}, n - 1);
    } else {
      assert s == {};
    }
  }

  lemma {:induction false} TakesField(body: Bytes, pos: nat, done: seq<Field>, f: Field)
    requires pos + 8 <= |body| && f.tag == Le32(body, pos) && |f.data| == Le32(body, pos + 4)
    requires pos + 8 + |f.data| <= |body| && body[pos + 8..pos + 8 + |f.data|] == f.data
    requires !AtTail(body, pos, done) && |done| < MAX_FIELDS
    requires f.tag <= MAX_TAG && |f.data| <= MAX_BODY && f.tag !in Tags(done)
    ensures NextStep(body, pos, done) == Take(f)
  {
  }

  /** Fields already taken, and fields that may still follow them. */
  ghost predicate Ready(done: seq<Field>, todo: seq<Field>) {
    |Tags(done)| == |done| && InRange(Tags(done)) && Fresh(Tags(done), todo) && Encodable(todo)
  }

  lemma {:induction false} ReadyNext(done: seq<Field>, todo: seq<Field>)
    requires Ready(done, todo) && todo != []
    ensures Ready(done + [todo[0]], todo[1..])
    ensures (done + [todo[0]]) + todo[1..] == done + todo && [todo[0]] + todo[1..] == todo
  {
    TagsGrow(done, todo[0]);
    OneMore(Tags(done), todo[0].tag);
  }

  lemma {:induction false} OneMore(s: set<nat>, t: nat)
    ensures t !in s ==> |s + {t}| == |s| + 1
  {
  }

  lemma {:induction false} TakesNext(body: Bytes, pos: nat, done: seq<Field>, todo: seq<Field>, tail: Bytes)
    requires pos <= |body| && Ready(done, todo) && todo != [] && (tail == [] || tail == Zeros(TAIL_LEN))
    requires body[pos..] == EncodeFields(todo) + tail
    ensures NextStep(body, pos, done) == Take(todo[0])
    ensures body[pos + 8 + |todo[0].data|..] == EncodeFields(todo[1..]) + tail
  {
    ZerosAreNoFields(Tags(done), todo, tail);
    Assoc(EncodeField(todo[0]), EncodeFields(todo[1..]), tail);
    HeaderAt(body, pos, todo[0], EncodeFields(todo[1..]) + tail);
    TagCount(Tags(done), todo);
    TakesField(body, pos, done, todo[0]);
  }

  lemma {:induction false} AcceptsStep(body: Bytes, pos: nat, done: seq<Field>, f: Field, more: seq<Field>)
    requires pos <= |body| && NextStep(body, pos, done) == Take(f)
    requires FieldsFrom(body, pos + 8 + |f.data|, done + [f]) == Ok((done + [f]) + more)
    ensures FieldsFrom(body, pos, done) == Ok(done + ([f] + more))
  {
    Assoc(done, [f], more);
  }

  lemma {:induction false} FieldsStop(body: Bytes, pos: nat, done: seq<Field>, tail: Bytes)
    requires pos <= |body| && body[pos..] == tail
    requires tail == [] || (tail == Zeros(TAIL_LEN) && EndsWithTailTag(done))
    ensures FieldsFrom(body, pos, done) == Ok(done)
  {
    assert |body| - pos == |tail|;
  }

  lemma {:induction false} EncodeCons(f: Field, more: seq<Field>)
    requires f.tag < U32_LIMIT && |f.data| < U32_LIMIT && Encodable(more)
    ensures Encodable([f] + more) && EncodeFields([f] + more) == EncodeField(f) + EncodeFields(more)
  {
    assert ([f] + more)[1..] == more;
  }

  lemma {:induction false} AcceptsFrom(body: Bytes, pos: nat, done: seq<Field>, todo: seq<Field>, tail: Bytes)
    requires pos <= |body| && Ready(done, todo)
    requires tail == [] || (tail == Zeros(TAIL_LEN) && EndsWithTailTag(done + todo))
    requires body[pos..] == EncodeFields(todo) + tail
    ensures FieldsFrom(body, pos, done) == Ok(done + todo)
    decreases |todo|
  {
    if todo == [] {
      Nil(done);
      Nil(tail);
      FieldsStop(body, pos, done, tail);
    } else {
      var f, more := todo[0], todo[1..];
      TakesNext(body, pos, done, todo, tail);
      ReadyNext(done, todo);
      AcceptsFrom(body, pos + 8 + |f.data|, done + [f], more, tail);
      AcceptsStep(body, pos, done, f, more);
    }
  }

  // ---------------------------------------------------------------- soundness

  /** From `pos` on the body encodes `todo`, fit to follow `done`, and a permitted tail. */
  ghost predicate Encodes(body: Bytes, pos: nat, done: seq<Field>, todo: seq<Field>, tail: Bytes) {
    && pos <= |body| && Fresh(Tags(done), todo) && Encodable(todo) && body[pos..] == EncodeFields(todo) + tail
    && (tail == [] || (tail == Zeros(TAIL_LEN) && EndsWithTailTag(done + todo)))
  }

  lemma {:induction false} EncodesTail(body: Bytes, pos: nat, done: seq<Field>)
    requires pos <= |body| && NextStep(body, pos, done).Stop?
    ensures Encodes(body, pos, done, [], body[pos..])
  {
    Nil(done);
    Nil(body[pos..]);
  }

  lemma {:induction false} EncodesBack(body: Bytes, pos: nat, done: seq<Field>, f: Field, more: seq<Field>, tail: Bytes)
    requires pos <= |body| && NextStep(body, pos, done) == Take(f)
    requires Encodes(body, pos + 8 + |f.data|, done + [f], more, tail)
    ensures Encodes(body, pos, done, [f] + more, tail)
  {
    var next := pos + 8 + |f.data|;
    Assoc(done, [f], more);
    TagsGrow(done, f);
    assert ([f] + more)[1..] == more;
    HeaderBytes(body, pos, f);
    EncodeCons(f, more);
    EncodedBack(body, pos, next, EncodeField(f), EncodeFields(more), tail);
  }

  lemma {:induction false} EncodedBack(body: Bytes, pos: nat, next: nat, a: Bytes, b: Bytes, tail: Bytes)
    requires pos <= next <= |body| && body[pos..next] == a && body[next..] == b + tail
    ensures body[pos..] == (a + b) + tail
  {
    assert body[pos..] == body[pos..next] + body[next..];
    Assoc(a, b, tail);
  }

  lemma {:induction false} AcceptedFrom(body: Bytes, pos: nat, done: seq<Field>) returns (todo: seq<Field>, tail: Bytes)
    requires pos <= |body| && FieldsFrom(body, pos, done).Ok?
    ensures FieldsFrom(body, pos, done) == Ok(done + todo) && Encodes(body, pos, done, todo, tail)
    decreases |body| - pos
  {
    var step := NextStep(body, pos, done);
    if step.Stop? {
      todo, tail := [], body[pos..];
      Nil(done);
      EncodesTail(body, pos, done);
    } else {
      var f := step.field;
      var more;
      more, tail := AcceptedFrom(body, pos + 8 + |f.data|, done + [f]);
      todo := [f] + more;
      AcceptsStep(body, pos, done, f, more);
      EncodesBack(body, pos, done, f, more, tail);
    }
  }

  lemma {:induction false} ThreeSlices(body: Bytes, a: nat, b: nat, c: nat, d: nat)
    requires a <= b <= c <= d <= |body|
    ensures body[a..d] == (body[a..b] + body[b..c]) + body[c..d]
  {
  }

  lemma {:induction false} HeaderBytes(body: Bytes, pos: nat, f: Field)
    requires pos + 8 + |f.data| <= |body| && |f.data| < U32_LIMIT
    requires Le32(body, pos) == f.tag && Le32(body, pos + 4) == |f.data|
    requires body[pos + 8..pos + 8 + |f.data|] == f.data
    ensures body[pos..pos + 8 + |f.data|] == EncodeField(f)
  {
    PutOfLe(body, pos, 4);
    PutOfLe(body, pos + 4, 4);
    ThreeSlices(body, pos, pos + 4, pos + 8, pos + 8 + |f.data|);
  }

  // ---------------------------------------------------------------- main results

  /** The parser accepts exactly the encodings, and returns exactly what was encoded. */
  lemma {:induction false} AcceptsExactlyEncodings(body: Bytes, fields: seq<Field>)
    ensures Parsed(body) == Ok(fields) <==> IsEncoding(body, fields)
  {
    if IsEncoding(body, fields) {
      var tail := if body[8..] == EncodeFields(fields) then [] else Zeros(TAIL_LEN);
      Nil(fields);
      Nil(EncodeFields(fields));
      AcceptsFrom(body, 8, [], fields, tail);
    }
    if Parsed(body) == Ok(fields) {
      var todo, tail := AcceptedFrom(body, 8, []);
      Nil(todo);
      Nil(EncodeFields(todo));
    }
  }

  /** A body built from any list of distinct fields within the limits, with or without the tail
      where the tail is permitted. */
  function Build(prefix: Bytes, fields: seq<Field>, withTail: bool): Bytes
    requires |prefix| == 4 && Encodable(fields) && FitsBody(fields, withTail)
  {
    var inner := EncodeFields(fields) + (if withTail then Zeros(TAIL_LEN) else []);
    prefix + PutLe16(0) + PutLe16(|inner| + 4) + inner
  }

  predicate FitsBody(fields: seq<Field>, withTail: bool)
    requires Encodable(fields)
  {
    8 + |EncodeFields(fields)| + (if withTail then TAIL_LEN else 0) <= MAX_BODY
  }

  lemma {:induction false} BuildRoundTrip(prefix: Bytes, fields: seq<Field>, withTail: bool)
    requires |prefix| == 4 && WellFormed(fields) && FitsBody(fields, withTail)
    requires withTail ==> EndsWithTailTag(fields)
    ensures Parsed(Build(prefix, fields, withTail)) == Ok(fields)
  {
    var body := Build(prefix, fields, withTail);
    var inner := EncodeFields(fields) + (if withTail then Zeros(TAIL_LEN) else []);
    var tag, len := PutLe16(0), PutLe16(|inner| + 4);
    assert body[4] == tag[0] && body[5] == tag[1] && body[6] == len[0] && body[7] == len[1];
    assert body[8..] == inner;
    Nil(EncodeFields(fields));
    AcceptsExactlyEncodings(body, fields);
  }

  function EncodedSize(fields: seq<Field>): nat {
    if fields == [] then 0 else 8 + |fields[0].data| + EncodedSize(fields[1..])
  }

  lemma {:induction false} EncodeFieldsSize(fields: seq<Field>)
    requires Encodable(fields)
    ensures |EncodeFields(fields)| == EncodedSize(fields)
  {
    if fields != [] {
      EncodeFieldsSize(fields[1..]);
    }
  }

  /** The padding an accepted event is charged is nothing or the 36 zeros. */
  lemma {:induction false} PaddingIsTail(body: Bytes)
    ensures Parsed(body).Ok? ==> |body| - 8 - EncodedSize(Parsed(body).fields) in {0, TAIL_LEN}
  {
    if Parsed(body).Ok? {
      AcceptsExactlyEncodings(body, Parsed(body).fields);
      EncodeFieldsSize(Parsed(body).fields);
    }
  }

  // ---------------------------------------------------------------- validation

  function DataOf(fields: seq<Field>, tag: nat): Bytes {
    if fields == [] then []
    else if fields[0].tag == tag then fields[0].data
    else DataOf(fields[1..], tag)
  }

  const SCALARS: seq<nat> := [0, 1, 2, 3, 4, 5, 8, 9, 12, 18, 20, 21]

  datatype Layout = PinnedCck | CountMatchesStorage
  datatype Checked = Valid(layout: Layout) | Invalid(error: CsiError)

  /** Little-endian signed 16-bit samples, as struct's "h". */
  function Sample(b: Bytes, i: nat): int
    requires 2 * i + 2 <= |b|
  {
    var v := Le16(b, 2 * i);
    if v < 32768 then v else v - 65536
  }

  predicate Signed14(b: Bytes)
    requires |b| % 2 == 0
  {
    forall i :: 0 <= i < |b| / 2 ==> -8192 <= Sample(b, i) <= 8191
  }

  function Scalar(fields: seq<Field>, tag: nat): nat
    requires |DataOf(fields, tag)| == 4
  {
    Le32(DataOf(fields, tag), 0)
  }

  function IqLayout(fields: seq<Field>): Checked
    requires |DataOf(fields, 0)| == 4 && |DataOf(fields, 1)| == 4 && |DataOf(fields, 5)| == 4
    requires |DataOf(fields, 8)| == 4 && |DataOf(fields, 12)| == 4
  {
    var i, q, count := DataOf(fields, 6), DataOf(fields, 7), Scalar(fields, 5);
    if Scalar(fields, 0) == 22 && Scalar(fields, 1) == 6 && Scalar(fields, 12) % 65536 == 0 then
      if count != 13 || Scalar(fields, 8) != 0 || |i| != 128 || |q| != 128 then Invalid(CckDimensions)
      else if !Signed14(i) || !Signed14(q) then Invalid(CckStorage)
      else Valid(PinnedCck)
    else if !(1 <= count <= 1024) || |i| != 2 * count || |q| != 2 * count then Invalid(IqDimensions)
    else Valid(CountMatchesStorage)
  }

  function BadScalar(fields: seq<Field>, tags: seq<nat>): Option<nat> {
    if tags == [] then None
    else if |DataOf(fields, tags[0])| != 4 then Some(tags[0])
    else BadScalar(fields, tags[1..])
  }

  lemma {:induction false} NoBadScalar(fields: seq<Field>, tags: seq<nat>, tag: nat)
    requires BadScalar(fields, tags).None? && tag in tags
    ensures |DataOf(fields, tag)| == 4
  {
    if tag != tags[0] {
      NoBadScalar(fields, tags[1..], tag);
    }
  }

  function Validate(fields: seq<Field>): Checked {
    match BadScalar(fields, SCALARS)
    case Some(tag) => Invalid(ScalarSize(tag))
    case None =>
      NoBadScalar(fields, SCALARS, 0);
      NoBadScalar(fields, SCALARS, 1);
      NoBadScalar(fields, SCALARS, 5);
      NoBadScalar(fields, SCALARS, 8);
      NoBadScalar(fields, SCALARS, 12);
      var layout := IqLayout(fields);
      if layout.Invalid? then layout
      else if |DataOf(fields, 10)| != 8 then Invalid(TransmitterSize)
      else layout
  }

  /** validate_fields: the scalars in order, then the layout, then the transmitter. */
  method ValidateFields(fields: seq<Field>) returns (checked: Checked)
    ensures checked == Validate(fields)
  {
    var tags: seq<nat> := [0, 1, 2, 3, 4, 5, 8, 9, 12, 18, 20, 21];
    for k := 0 to |tags|
      invariant BadScalar(fields, SCALARS) == BadScalar(fields, tags[k..])
    {
      if |DataOf(fields, tags[k])| != 4 {
        return Invalid(ScalarSize(tags[k]));
      }
    }
    NoBadScalar(fields, SCALARS, 0);
    NoBadScalar(fields, SCALARS, 1);
    NoBadScalar(fields, SCALARS, 5);
    NoBadScalar(fields, SCALARS, 8);
    NoBadScalar(fields, SCALARS, 12);
    checked := IqLayout(fields);
    if checked.Valid? && |DataOf(fields, 10)| != 8 {
      checked := Invalid(TransmitterSize);
    }
  }

  /** The five scalars that the layout reads. */
  ghost predicate LayoutScalars(fields: seq<Field>) {
    && |DataOf(fields, 0)| == 4 && |DataOf(fields, 1)| == 4 && |DataOf(fields, 5)| == 4
    && |DataOf(fields, 8)| == 4 && |DataOf(fields, 12)| == 4
  }

  lemma {:induction false} ValidatedLayout(fields: seq<Field>)
    requires Validate(fields).Valid?
    ensures BadScalar(fields, SCALARS).None? && |DataOf(fields, 10)| == 8
    ensures LayoutScalars(fields) && Validate(fields) == IqLayout(fields)
  {
    NoBadScalar(fields, SCALARS, 0);
    NoBadScalar(fields, SCALARS, 1);
    NoBadScalar(fields, SCALARS, 5);
    NoBadScalar(fields, SCALARS, 8);
    NoBadScalar(fields, SCALARS, 12);
  }

  lemma {:induction false} LayoutUnpacks(fields: seq<Field>)
    requires LayoutScalars(fields) && IqLayout(fields).Valid?
    ensures var i, q := DataOf(fields, 6), DataOf(fields, 7);
            |i| == |q| && |i| % 2 == 0 && 2 <= |i| <= 2048
    ensures IqLayout(fields) == Valid(PinnedCck) ==>
              |DataOf(fields, 6)| == 128 && Signed14(DataOf(fields, 6)) && Signed14(DataOf(fields, 7))
  {
  }

  /** Once an event is validated nothing later in add can fail: every scalar unpacks, the two sample
      arrays are equal, whole and not empty, and the transmitter field has its eight octets. */
  lemma {:induction false} ValidatedUnpacks(fields: seq<Field>, tag: nat)
    requires Validate(fields).Valid?
    ensures tag in SCALARS ==> |DataOf(fields, tag)| == 4
    ensures var i, q := DataOf(fields, 6), DataOf(fields, 7);
            |i| == |q| && |i| % 2 == 0 && 2 <= |i| <= 2048 && |DataOf(fields, 10)| == 8
    ensures Validate(fields) == Valid(PinnedCck) ==>
              |DataOf(fields, 6)| == 128 && Signed14(DataOf(fields, 6)) && Signed14(DataOf(fields, 7))
  {
    ValidatedLayout(fields);
    LayoutUnpacks(fields);
    if tag in SCALARS {
      NoBadScalar(fields, SCALARS, tag);
    }
  }

  /** A scalar of a validated event. */
  function Word(fields: seq<Field>, tag: nat): (w: nat)
    requires BadScalar(fields, SCALARS).None? && tag in SCALARS
    ensures w < U32_LIMIT
  {
    NoBadScalar(fields, SCALARS, tag);
    Scalar(fields, tag)
  }
}
