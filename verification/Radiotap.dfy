/** Radiotap headers: their layout, and a reader that knows only the present bitmap, the field sizes
    and the alignment rules. */
module Radiotap {
  import opened Wire

  // ---------------------------------------------------------------- rows

  /** One row per field in ascending bit order: flags, rate, channel, signal, MCS, VHT and HE; then
      the TLV list. */
  const ROWS := 7
  const TLV_BIT := 28
  const HEADER := 8

  function BitOf(row: nat): nat {
    if row == 0 then 1 else if row == 1 then 2 else if row == 2 then 3 else if row == 3 then 5
    else if row == 4 then 19 else if row == 5 then 21 else if row == 6 then 23 else TLV_BIT
  }

  function Align(row: nat): (a: nat)
    ensures a > 0
  {
    if row == 2 || row == 5 || row == 6 then 2 else 1
  }

  function Size(row: nat): nat {
    if row == 2 then 4 else if row == 4 then 3 else if row == 5 || row == 6 then 12 else 1
  }

  lemma {:induction false} Pow2Add(m: nat, n: nat)
    ensures Pow2(m + n) == Pow2(m) * Pow2(n)
  {
    if m > 0 {
      Pow2Add(m - 1, n);
      DoubleProduct(Pow2(m - 1), Pow2(n));
    }
  }

  lemma {:induction false} DoubleProduct(a: nat, b: nat)
    ensures 2 * (a * b) == (2 * a) * b
  {
  }

  lemma {:induction false} Pow2Grows(m: nat, n: nat)
    requires m <= n
    ensures Pow2(m) <= Pow2(n)
    decreases n
  {
    if m < n {
      Pow2Grows(m, n - 1);
    }
  }

  type Fields = seq<Option<Bytes>>

  predicate Sized(fs: Fields) {
    |fs| == ROWS && forall i :: 0 <= i < ROWS && fs[i].Some? ==> |fs[i].value| == Size(i)
  }

  /** Padding to an alignment of 1, 2 or 4. */
  function Padding(off: nat, align: nat): (n: nat)
    ensures n < 4
  {
    if align == 2 then off % 2 else if align == 4 then (4 - off % 4) % 4 else 0
  }

  /** What the first n rows come to after the fixed eight octets, each aligned from the header's start. */
  function Place(fs: Fields, n: nat): Bytes
    requires Sized(fs) && n <= ROWS
  {
    if n == 0 then []
    else
      var before := Place(fs, n - 1);
      if fs[n - 1].None? then before
      else before + (Zeros(Padding(HEADER + |before|, Align(n - 1))) + fs[n - 1].value)
  }

  // ---------------------------------------------------------------- TLVs

  datatype Tlv = Tlv(kind: nat, data: Bytes)

  predicate TlvOk(t: Tlv) {
    t.kind < 0x1_0000 && |t.data| < 0x1_0000 && |t.data| % 4 == 0
  }

  function PutTlv(t: Tlv): (b: Bytes)
    requires TlvOk(t)
    ensures |b| == 4 + |t.data|
  {
    PutLe16(t.kind) + PutLe16(|t.data|) + t.data
  }

  function Pieces(ts: seq<Tlv>): (ps: seq<Bytes>)
    requires forall k :: 0 <= k < |ts| ==> TlvOk(ts[k])
    ensures |ps| == |ts| && forall k :: 0 <= k < |ts| ==> ps[k] == PutTlv(ts[k])
  {
    seq(|ts|, k requires 0 <= k < |ts| => PutTlv(ts[k]))
  }

  /** The pieces from i on. */
  function Join(ps: seq<Bytes>, i: nat): Bytes
    requires i <= |ps|
    decreases |ps| - i
  {
    if i == |ps| then [] else ps[i] + Join(ps, i + 1)
  }

  function PutTlvs(ts: seq<Tlv>): Bytes
    requires forall k :: 0 <= k < |ts| ==> TlvOk(ts[k])
  {
    Join(Pieces(ts), 0)
  }

  // ---------------------------------------------------------------- headers

  /** What goes into one header. */
  datatype Content = Content(fields: Fields, tlvs: seq<Tlv>)

  predicate ContentOk(c: Content) {
    && Sized(c.fields) && (forall k :: 0 <= k < |c.tlvs| ==> TlvOk(c.tlvs[k]))
  }

  function PresentUpTo(fs: Fields, n: nat): nat
    requires |fs| == ROWS && n <= ROWS
  {
    if n == 0 then 0 else PresentUpTo(fs, n - 1) + (if fs[n - 1].Some? then Pow2(BitOf(n - 1)) else 0)
  }

  function Present(c: Content): nat
    requires |c.fields| == ROWS
  {
    PresentUpTo(c.fields, ROWS) + (if c.tlvs != [] then Pow2(TLV_BIT) else 0)
  }

  /** The rows, and the TLVs at the next multiple of four. */
  function Closed(rows: Bytes, ts: seq<Tlv>): (b: Bytes)
    requires forall k :: 0 <= k < |ts| ==> TlvOk(ts[k])
    ensures |rows| <= |b|
  {
    if ts == [] then rows else rows + Zeros(Padding(HEADER + |rows|, 4)) + PutTlvs(ts)
  }

  /** The octets after the fixed eight. */
  function Body(c: Content): Bytes
    requires ContentOk(c)
  {
    Closed(Place(c.fields, |c.fields|), c.tlvs)
  }

  predicate Fits(c: Content) {
    ContentOk(c) && HEADER + |Body(c)| < 0x1_0000
  }

  lemma {:induction false} PresentBound(fs: Fields, n: nat)
    requires |fs| == ROWS && n <= ROWS
    ensures PresentUpTo(fs, n) < Pow2(BitOf(n))
  {
    if n > 0 {
      PresentBound(fs, n - 1);
      assert Pow2(BitOf(n - 1) + 1) == 2 * Pow2(BitOf(n - 1));
      Pow2Grows(BitOf(n - 1) + 1, BitOf(n));
    }
  }

  lemma {:induction false} TlvPower()
    ensures Pow2(TLV_BIT) == 0x1000_0000
  {
    Pow2Add(14, 14);
    Pow2Add(7, 7);
  }

  function Fixed(length: nat, present: nat): (b: Bytes)
    requires length < 0x1_0000 && present < U32_LIMIT
    ensures |b| == HEADER
  {
    [0, 0] + PutLe16(length) + PutLe32(present)
  }

  function Header(c: Content): Bytes
    requires Fits(c)
  {
    PresentBound(c.fields, ROWS);
    TlvPower();
    Fixed(HEADER + |Body(c)|, Present(c)) + Body(c)
  }

  // ---------------------------------------------------------------- the reader

  /** Which rows a present word announces. */
  function Shown(present: nat): (rows: seq<bool>)
    ensures |rows| == ROWS && forall i :: 0 <= i < ROWS ==> rows[i] == Bit(present, Pow2(BitOf(i)))
  {
    seq(ROWS, i requires 0 <= i < ROWS => Bit(present, Pow2(BitOf(i))))
  }

  /** Where the first n rows end, if those shown are there. */
  function RowEnd(shown: seq<bool>, n: nat): nat
    requires n <= ROWS == |shown|
  {
    if n == 0 then HEADER
    else
      var before := RowEnd(shown, n - 1);
      if shown[n - 1] then before + Padding(before, Align(n - 1)) + Size(n - 1) else before
  }

  lemma {:induction false} RowEndGrows(shown: seq<bool>, m: nat, n: nat)
    requires m <= n <= ROWS == |shown|
    ensures RowEnd(shown, m) <= RowEnd(shown, n)
    ensures m < n && shown[m] ==> Size(m) <= RowEnd(shown, m + 1) <= RowEnd(shown, n)
    decreases n
  {
    if m < n {
      RowEndGrows(shown, m, n - 1);
    }
  }

  /** The octets of one row, if it is shown. */
  function ReadRow(h: Bytes, shown: seq<bool>, i: nat): Option<Bytes>
    requires i < ROWS == |shown| && RowEnd(shown, ROWS) <= |h|
  {
    RowEndGrows(shown, i, ROWS);
    if shown[i] then Some(h[RowEnd(shown, i + 1) - Size(i)..RowEnd(shown, i + 1)]) else None
  }

  function ReadRows(h: Bytes, shown: seq<bool>): (fs: Fields)
    requires ROWS == |shown| && RowEnd(shown, ROWS) <= |h|
    ensures |fs| == ROWS && forall i :: 0 <= i < ROWS ==> fs[i] == ReadRow(h, shown, i)
  {
    seq(ROWS, i requires 0 <= i < ROWS => ReadRow(h, shown, i))
  }

  function ReadTlvs(h: Bytes, off: nat, end: nat): Option<seq<Tlv>>
    decreases end - off
  {
    if off == end then Some([])
    else if off + 4 > end || end > |h| || off + 4 + Le16(h, off + 2) > end then None
    else
      var n := Le16(h, off + 2);
      var next := off + 4 + n + Padding(n, 4);
      if next > end then None
      else
        var rest := ReadTlvs(h, next, end);
        if rest.None? then None else Some([Tlv(Le16(h, off), h[off + 4..off + 4 + n])] + rest.value)
  }

  /** TLVs after the rows if announced; without them the last row must end the header. */
  function ReadRest(h: Bytes, fields: Fields, tlvs: bool, off: nat, end: nat): Option<Content> {
    if !tlvs then (if off == end then Some(Content(fields, [])) else None)
    else if off + Padding(off, 4) > end then None
    else
      var list := ReadTlvs(h, off + Padding(off, 4), end);
      if list.None? then None else Some(Content(fields, list.value))
  }

  function ReadBody(h: Bytes, shown: seq<bool>, tlvs: bool, end: nat): Option<Content>
    requires |shown| == ROWS
  {
    var off := RowEnd(shown, ROWS);
    if off > end || end > |h| then None else ReadRest(h, ReadRows(h, shown), tlvs, off, end)
  }

  /** The content of a header at the start of a packet, and where it ends. */
  function ReadHeader(h: Bytes): Option<(Content, nat)> {
    if |h| < HEADER || h[0] != 0 then None
    else
      var end, present := Le16(h, 2), Le32(h, 4);
      var content := ReadBody(h, Shown(present), Bit(present, Pow2(TLV_BIT)), end);
      if content.None? then None else Some((content.value, end))
  }

  /** The buffer holds these octets at this offset. */
  ghost predicate At(h: Bytes, off: nat, b: Bytes) {
    off + |b| <= |h| && forall k :: 0 <= k < |b| ==> b[k] == h[off + k]
  }

  lemma {:induction false} AtSlice(h: Bytes, off: nat, b: Bytes)
    requires At(h, off, b)
    ensures h[off..off + |b|] == b
  {
  }

  lemma {:induction false} AtParts(h: Bytes, off: nat, a: Bytes, b: Bytes)
    requires At(h, off, a + b)
    ensures At(h, off, a) && At(h, off + |a|, b)
  {
    forall k | 0 <= k < |a|
      ensures a[k] == h[off + k]
    {
      assert (a + b)[k] == a[k];
    }
    forall k | 0 <= k < |b|
      ensures b[k] == h[off + |a| + k]
    {
      assert (a + b)[|a| + k] == b[k];
    }
  }

  predicate Shows(shown: seq<bool>, fs: Fields) {
    |shown| == ROWS == |fs| && forall k :: 0 <= k < ROWS ==> shown[k] == fs[k].Some?
  }

  lemma {:induction false} PlaceEnds(fs: Fields, shown: seq<bool>, n: nat)
    requires Sized(fs) && Shows(shown, fs) && n <= ROWS
    ensures HEADER + |Place(fs, n)| == RowEnd(shown, n)
  {
    if n > 0 {
      PlaceEnds(fs, shown, n - 1);
    }
  }

  lemma {:induction false} PlaceAt(h: Bytes, fs: Fields, m: nat, n: nat)
    requires Sized(fs) && m <= n <= ROWS && At(h, HEADER, Place(fs, n))
    ensures At(h, HEADER, Place(fs, m))
    decreases n
  {
    if m < n {
      if fs[n - 1].Some? {
        var before := Place(fs, n - 1);
        AtParts(h, HEADER, before, Zeros(Padding(HEADER + |before|, Align(n - 1))) + fs[n - 1].value);
      }
      PlaceAt(h, fs, m, n - 1);
    }
  }

  lemma {:induction false} RowAt(h: Bytes, before: Bytes, pad: Bytes, value: Bytes, end: nat)
    requires At(h, HEADER, before + (pad + value)) && end == HEADER + |before| + |pad| + |value|
    ensures end <= |h| && h[end - |value|..end] == value
  {
    AtParts(h, HEADER, before, pad + value);
    AtParts(h, HEADER + |before|, pad, value);
    AtSlice(h, HEADER + |before| + |pad|, value);
  }

  lemma {:induction false} PlacedRow(h: Bytes, fs: Fields, shown: seq<bool>, i: nat, n: nat)
    requires Sized(fs) && Shows(shown, fs) && i < n <= ROWS && fs[i].Some? && At(h, HEADER, Place(fs, n))
    ensures var end := RowEnd(shown, i + 1);
            Size(i) <= end <= |h| && h[end - Size(i)..end] == fs[i].value
  {
    var before := Place(fs, i);
    PlaceAt(h, fs, i + 1, n);
    PlaceEnds(fs, shown, i);
    RowAt(h, before, Zeros(Padding(HEADER + |before|, Align(i))), fs[i].value, RowEnd(shown, i + 1));
  }

  /** Every row reads back as it was placed. */
  lemma {:induction false} RowRoundTrip(h: Bytes, fs: Fields, shown: seq<bool>, i: nat)
    requires Sized(fs) && Shows(shown, fs) && i < ROWS && At(h, HEADER, Place(fs, |fs|))
    ensures RowEnd(shown, ROWS) <= |h| && ReadRow(h, shown, i) == fs[i]
  {
    PlaceEnds(fs, shown, ROWS);
    if fs[i].Some? {
      PlacedRow(h, fs, shown, i, |fs|);
    }
  }

  lemma {:induction false} RowsRoundTrip(h: Bytes, fs: Fields, shown: seq<bool>)
    requires Sized(fs) && Shows(shown, fs) && At(h, HEADER, Place(fs, |fs|))
    ensures RowEnd(shown, ROWS) == HEADER + |Place(fs, |fs|)| <= |h| && ReadRows(h, shown) == fs
  {
    PlaceEnds(fs, shown, ROWS);
    forall i | 0 <= i < ROWS
      ensures ReadRows(h, shown)[i] == fs[i]
    {
      RowRoundTrip(h, fs, shown, i);
    }
  }

  lemma {:induction false} TlvAt(h: Bytes, off: nat, t: Tlv)
    requires TlvOk(t) && At(h, off, PutTlv(t))
    ensures Le16(h, off) == t.kind && Le16(h, off + 2) == |t.data| && h[off + 4..off + 4 + |t.data|] == t.data
  {
    AtParts(h, off, PutLe16(t.kind) + PutLe16(|t.data|), t.data);
    AtParts(h, off, PutLe16(t.kind), PutLe16(|t.data|));
    SameLe16(h, off, t.kind);
    SameLe16(h, off + 2, |t.data|);
    AtSlice(h, off + 4, t.data);
  }

  lemma {:induction false} SameLe16(h: Bytes, off: nat, v: nat)
    requires v < 0x1_0000 && At(h, off, PutLe16(v))
    ensures Le16(h, off) == v
  {
    var b := PutLe16(v);
    assert b[0] == h[off] && b[1] == h[off + 1];
  }

  lemma {:induction false} TlvStep(h: Bytes, off: nat, end: nat, t: Tlv, rest: seq<Tlv>)
    requires TlvOk(t) && At(h, off, PutTlv(t)) && off + 4 + |t.data| <= end <= |h|
    requires ReadTlvs(h, off + 4 + |t.data|, end) == Some(rest)
    ensures ReadTlvs(h, off, end) == Some([t] + rest)
  {
    TlvAt(h, off, t);
    assert Padding(|t.data|, 4) == 0;
  }

  lemma {:induction false} TlvsRoundTrip(h: Bytes, off: nat, end: nat, ts: seq<Tlv>, ps: seq<Bytes>, i: nat)
    requires i <= |ts| == |ps| && forall k :: 0 <= k < |ts| ==> TlvOk(ts[k]) && ps[k] == PutTlv(ts[k])
    requires At(h, off, Join(ps, i)) && end == off + |Join(ps, i)|
    ensures ReadTlvs(h, off, end) == Some(ts[i..])
    decreases |ts| - i
  {
    if i < |ts| {
      AtParts(h, off, ps[i], Join(ps, i + 1));
      TlvsRoundTrip(h, off + |ps[i]|, end, ts, ps, i + 1);
      TlvStep(h, off, end, ts[i], ts[i + 1..]);
      DropOne(ts, i);
    } else {
      assert ts[i..] == [];
    }
  }

  // ---------------------------------------------------------------- headers read back

  lemma {:induction false} LowBit(low: nat, power: nat, there: bool)
    requires low < power
    ensures Bit(low + (if there then power else 0), power) == there
  {
    Digit(low, if there then 1 else 0, power);
  }

  lemma {:induction false} HighBit(v: nat, power: nat, m: nat)
    requires power > 0
    ensures Bit(v + power * (2 * m), power) == Bit(v, power)
  {
    QuotientPlus(v, power, v / power, v % power, 2 * m);
    var q := v / power;
    assert (q + 2 * m) % 2 == q % 2;
  }

  lemma {:induction false} QuotientPlus(v: nat, power: nat, q: nat, r: nat, c: nat)
    requires v == r + power * q && r < power
    ensures (v + power * c) / power == q + c
  {
    assert power * (q + c) == power * q + power * c;
    Digit(r, q + c, power);
  }

  /** A bit above another is an even multiple of it. */
  lemma {:induction false} AddHigher(v: nat, low: nat, high: nat, there: bool)
    requires low < high
    ensures Bit(v + (if there then Pow2(high) else 0), Pow2(low)) == Bit(v, Pow2(low))
  {
    if there {
      var d := high - low - 1;
      Pow2Add(low, d + 1);
      assert Pow2(d + 1) == 2 * Pow2(d);
      HighBit(v, Pow2(low), Pow2(d));
    }
  }

  lemma {:induction false} BitsAscend(j: nat, k: nat)
    requires j < k <= ROWS
    ensures BitOf(j) < BitOf(k)
  {
  }

  /** The present word shows exactly the rows that are there. */
  lemma {:induction false} PresentBits(fs: Fields, n: nat, k: nat)
    requires |fs| == ROWS && k < n <= ROWS
    ensures Bit(PresentUpTo(fs, n), Pow2(BitOf(k))) == fs[k].Some?
  {
    if k == n - 1 {
      PresentBound(fs, k);
      LowBit(PresentUpTo(fs, k), Pow2(BitOf(k)), fs[k].Some?);
    } else {
      PresentBits(fs, n - 1, k);
      BitsAscend(k, n - 1);
      AddHigher(PresentUpTo(fs, n - 1), BitOf(k), BitOf(n - 1), fs[n - 1].Some?);
    }
  }

  lemma {:induction false} PresentShows(c: Content, k: nat)
    requires |c.fields| == ROWS
    ensures k < ROWS ==> Bit(Present(c), Pow2(BitOf(k))) == c.fields[k].Some?
    ensures Bit(Present(c), Pow2(TLV_BIT)) == (c.tlvs != [])
  {
    PresentBound(c.fields, ROWS);
    LowBit(PresentUpTo(c.fields, ROWS), Pow2(TLV_BIT), c.tlvs != []);
    if k < ROWS {
      PresentBits(c.fields, ROWS, k);
      BitsAscend(k, ROWS);
      AddHigher(PresentUpTo(c.fields, ROWS), BitOf(k), TLV_BIT, c.tlvs != []);
    }
  }

  /** The fixed octets read back. */
  lemma {:induction false} FixedRoundTrip(h: Bytes, length: nat, present: nat)
    requires length < 0x1_0000 && present < U32_LIMIT && At(h, 0, Fixed(length, present))
    ensures h[0] == 0 && Le16(h, 2) == length && Le32(h, 4) == present
  {
    AtParts(h, 0, [0, 0] + PutLe16(length), PutLe32(present));
    AtParts(h, 0, [0, 0], PutLe16(length));
    SameLe16(h, 2, length);
    AtSlice(h, 4, PutLe32(present));
    assert PutLe32(present)[0..4] == PutLe32(present);
    LeAgree(h, 4, PutLe32(present), 0, 4);
    assert [0, 0][0] == h[0];
  }

  /** A header read from the start of any packet gives its content back and ends exactly at the
      length it states. */
  lemma {:induction false} HeaderRoundTrip(c: Content, frame: Bytes)
    requires Fits(c)
    ensures ReadHeader(Header(c) + frame) == Some((c, |Header(c)|))
  {
    var h, end := Header(c) + frame, HEADER + |Body(c)|;
    PresentBound(c.fields, ROWS);
    TlvPower();
    AtStart(Header(c), frame);
    AtParts(h, 0, Fixed(end, Present(c)), Body(c));
    FixedRoundTrip(h, end, Present(c));
    AllShown(c);
    BodyRoundTrip(h, c, Shown(Present(c)));
  }

  lemma {:induction false} AtStart(a: Bytes, b: Bytes)
    ensures At(a + b, 0, a)
  {
  }

  lemma {:induction false} AllShown(c: Content)
    requires |c.fields| == ROWS
    ensures Shows(Shown(Present(c)), c.fields)
    ensures Bit(Present(c), Pow2(TLV_BIT)) == (c.tlvs != [])
  {
    forall k | 0 <= k < ROWS
      ensures Shown(Present(c))[k] == c.fields[k].Some?
    {
      PresentShows(c, k);
    }
    PresentShows(c, ROWS);
  }

  /** The TLVs, after the padding that aligns them. */
  lemma {:induction false} TlvPart(h: Bytes, off: nat, rows: Bytes, pad: Bytes, ts: seq<Tlv>)
    requires forall k :: 0 <= k < |ts| ==> TlvOk(ts[k])
    requires At(h, off, rows + pad + PutTlvs(ts))
    ensures At(h, off, rows)
    ensures ReadTlvs(h, off + |rows| + |pad|, off + |rows| + |pad| + |PutTlvs(ts)|) == Some(ts)
  {
    AtParts(h, off, rows + pad, PutTlvs(ts));
    AtParts(h, off, rows, pad);
    TlvsRoundTrip(h, off + |rows| + |pad|, off + |rows| + |pad| + |PutTlvs(ts)|, ts, Pieces(ts), 0);
    assert ts[0..] == ts;
  }

  lemma {:induction false} RestRoundTrip(h: Bytes, c: Content, rows: Bytes)
    requires ContentOk(c) && At(h, HEADER, Closed(rows, c.tlvs))
    ensures At(h, HEADER, rows)
    ensures ReadRest(h, c.fields, c.tlvs != [], HEADER + |rows|, HEADER + |Closed(rows, c.tlvs)|) == Some(c)
  {
    if c.tlvs != [] {
      TlvPart(h, HEADER, rows, Zeros(Padding(HEADER + |rows|, 4)), c.tlvs);
    }
  }

  lemma {:induction false} BodyRoundTrip(h: Bytes, c: Content, shown: seq<bool>)
    requires ContentOk(c) && At(h, HEADER, Body(c)) && Shows(shown, c.fields)
    ensures ReadBody(h, shown, c.tlvs != [], HEADER + |Body(c)|) == Some(c)
  {
    RestRoundTrip(h, c, Place(c.fields, |c.fields|));
    RowsRoundTrip(h, c.fields, shown);
  }

  lemma {:induction false} PlaceBound(fs: Fields, n: nat)
    requires Sized(fs) && n <= ROWS
    ensures |Place(fs, n)| <= Limit(n)
  {
    if n > 0 {
      PlaceBound(fs, n - 1);
    }
  }

  /** Room for the first n rows with their padding. */
  function Limit(n: nat): nat {
    if n == 0 then 0 else if n == 1 then 1 else if n == 2 then 2 else if n == 3 then 7 else if n == 4 then 8
    else if n == 5 then 11 else if n == 6 then 24 else 37
  }

  lemma {:induction false} TlvsLength(ts: seq<Tlv>)
    requires |ts| == 2 && TlvOk(ts[0]) && TlvOk(ts[1])
    ensures |PutTlvs(ts)| == 8 + |ts[0].data| + |ts[1].data|
  {
    var ps := Pieces(ts);
    assert Join(ps, 2) == [] && Join(ps, 1) == ps[1] + Join(ps, 2);
  }

  lemma {:induction false} BodyBound(c: Content)
    requires ContentOk(c) && |c.tlvs| in {0, 2}
    requires c.tlvs != [] ==> |c.tlvs[0].data| == 12 && |c.tlvs[1].data| == 44
    ensures |Body(c)| <= 104
  {
    PlaceBound(c.fields, ROWS);
    if c.tlvs != [] {
      TlvsLength(c.tlvs);
    }
  }
}
