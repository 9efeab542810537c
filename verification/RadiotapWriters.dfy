/** The two writers of radiotap headers (examples/sniff_to_pcap.py and pcap_writer_write_frame in
    c/mt7921_rxd.c), each with its own field encoders: Python grows a byte string, C stores into a
    128-octet buffer. */
module RadiotapWriters {
  import opened Wire
  import opened Radiotap

  /** Decoded PHY metadata. `rate` is in units of 500 kb/s, zero when unknown. */
  datatype Phy = Phy(mode: nat, rate: Byte, width: nat, gi: Byte, mcs: Byte, nss: Byte, nsts: Byte,
                     stbc: bool, ldpc: bool, dcm: bool, ruOffset: Byte, ruTones: nat)

  datatype Record = Record(frequency: nat, low: bool, rssi: Option<int>, badFcs: bool, phy: Option<Phy>)

  predicate RecordOk(r: Record) {
    r.frequency < 0x1_0000
  }

  const CCK := 0
  const OFDM := 1
  const HT := 2
  const HT_GF := 3
  const VHT := 4
  const HE_SU := 8
  const HE_EXT_SU := 9
  const HE_TB := 10
  const HE_MU := 11
  const EHT_SU := 13
  const EHT_TRIG := 14
  const EHT_MU := 15

  const RT_FLAGS := 0x2
  const RT_RATE := 0x4
  const RT_CHANNEL := 0x8
  const RT_SIGNAL := 0x20
  const RT_MCS := 0x8_0000
  const RT_VHT := 0x20_0000
  const RT_HE := 0x80_0000
  const RT_TLV := 0x1000_0000

  const TLV_U_SIG := 33
  const TLV_EHT := 34

  /** What has its own bits in a word: all sums below are of distinct bits. */
  function Flag(b: bool, value: nat): nat {
    if b then value else 0
  }

  /** Six 16-bit words, Python's "<HHHHHH" and C's six copies. */
  function SixWords(d1: nat, d2: nat, d3: nat, d4: nat, d5: nat, d6: nat): (b: Bytes)
    requires d1 < 0x1_0000 && d2 < 0x1_0000 && d3 < 0x1_0000 && d4 < 0x1_0000 && d5 < 0x1_0000 && d6 < 0x1_0000
    ensures |b| == 12
  {
    [d1 % 256, d1 / 256, d2 % 256, d2 / 256, d3 % 256, d3 / 256,
     d4 % 256, d4 / 256, d5 % 256, d5 / 256, d6 % 256, d6 / 256]
  }

  function Words(ws: seq<nat>): (b: Bytes)
    requires forall i :: 0 <= i < |ws| ==> ws[i] < U32_LIMIT
    ensures |b| == 4 * |ws|
  {
    if ws == [] then [] else Words(ws[..|ws| - 1]) + PutLe32(ws[|ws| - 1])
  }

  lemma {:induction false} WordsBegin(ws: seq<nat>)
    requires ws != [] && forall i :: 0 <= i < |ws| ==> ws[i] < U32_LIMIT
    ensures Words(ws)[0] == ws[0] % 256
  {
    if |ws| > 1 {
      WordsBegin(ws[..|ws| - 1]);
    } else {
      assert Words(ws[..0]) == [];
      PutBegins(ws[0]);
    }
  }

  lemma {:induction false} PutBegins(v: nat)
    requires v < U32_LIMIT
    ensures PutLe32(v)[0] == v % 256
  {
    assert PutLe32(v) == PutLe(v, 4);
  }

  // ---------------------------------------------------------------- Python's fields

  const USIG_BW_CODE: map<nat, nat> := map[20 := 0, 40 := 1, 80 := 2, 160 := 3, 320 := 4]
  const RU_MRU_SIZE_CODE: map<nat, nat> := map[20 := 3, 40 := 4, 80 := 5, 160 := 6, 320 := 7]
  const HE_RU_CODE: map<nat, nat> := map[26 := 4, 52 := 5, 106 := 6, 242 := 7, 484 := 8, 996 := 9, 1992 := 10]

  function PythonMcs(p: Phy): (b: Bytes)
    ensures |b| == 3
  {
    var flags := Flag(p.width == 40, 1) + Flag(p.gi != 0, 4);
    [7, flags, p.mcs]
  }

  function PythonVhtWidth(width: nat): Byte {
    if width == 80 then 4 else if width == 40 then 1 else if width == 20 then 0 else 11
  }

  function PythonVht(p: Phy): (b: Bytes)
    ensures |b| == 12
  {
    var width := PythonVhtWidth(p.width);
    var gi := if p.gi != 0 then 1 else 0;
    var flags := Flag(p.stbc, 1) + 4 * gi;
    var nss := if p.nss > 1 then p.nss else 1;
    var user0 := 16 * (p.mcs % 16) + nss % 16;
    var coding := if p.ldpc then 1 else 0;
    [0x45, 0] + [flags, width, user0, 0, 0, 0, coding, 0] + [0, 0]
  }

  function PythonHeAllocation(p: Phy): (code: nat)
    ensures code <= 10
  {
    var byWidth := if p.width == 160 then 3 else if p.width == 80 then 2 else if p.width == 40 then 1 else 0;
    if p.mode in {HE_MU, HE_TB} then (if p.ruTones in HE_RU_CODE then HE_RU_CODE[p.ruTones] else byWidth)
    else if p.mode == HE_EXT_SU then (if p.ruTones == 106 then 6 else if p.width == 40 then 1 else 0)
    else byWidth
  }

  function PythonHe(p: Phy): (b: Bytes)
    ensures |b| == 12
  {
    var format := if p.mode == HE_EXT_SU then 1 else if p.mode == HE_MU then 2 else if p.mode == HE_TB then 3 else 0;
    var d1 := format + 0x20 + 0x40 + 0x80 + 0x200 + 0x4000;
    var d2 := if p.mode in {HE_MU, HE_TB} then 2 + 0x4000 + 256 * (p.ruOffset % 64) else 2;
    var d3 := 256 * (p.mcs % 16) + Flag(p.dcm, 0x1000) + Flag(p.ldpc, 0x2000) + Flag(p.stbc, 0x8000);
    var d5 := PythonHeAllocation(p) % 16 + 16 * (p.gi % 4);
    SixWords(d1, d2, d3, 0, d5, p.nsts % 16)
  }

  /** A missing width is taken for 20 MHz. */
  function PythonWidth(p: Phy): nat {
    if p.width == 0 then 20 else p.width
  }

  function PythonUsig(p: Phy): (ws: seq<nat>)
    ensures |ws| == 3 && forall i :: 0 <= i < 3 ==> ws[i] < U32_LIMIT
  {
    var width := PythonWidth(p);
    [if width in USIG_BW_CODE then 2 + 0x8000 * USIG_BW_CODE[width] else 0, 0, 0]
  }

  function PythonUser(p: Phy): (w: nat)
    ensures w < U32_LIMIT
  {
    var nss := if p.nss > 1 then p.nss else 1;
    2 + 4 + 0x10 + 0x80 + 0x10_0000 * (p.mcs % 16) + 0x100_0000 * ((nss - 1) % 16) + Flag(p.ldpc, 0x8_0000)
  }

  /** The known word, nine data words and the user word. */
  function PythonEht(p: Phy): (ws: seq<nat>)
    ensures |ws| == 11 && forall i :: 0 <= i < 11 ==> ws[i] < U32_LIMIT
  {
    var width := PythonWidth(p);
    var data := [0, 0, 0, 0, 0, 0, 0, 0, 0][0 := 128 * (p.gi % 4)];
    if p.mode == EHT_SU && width in RU_MRU_SIZE_CODE then
      [4 + 0x40_0000] + data[1 := RU_MRU_SIZE_CODE[width]] + [PythonUser(p)]
    else [4] + data + [PythonUser(p)]
  }

  function PythonTlvs(p: Phy): (ts: seq<Tlv>)
    ensures |ts| == 2 && TlvOk(ts[0]) && TlvOk(ts[1]) && |ts[0].data| == 12 && |ts[1].data| == 44
  {
    [Tlv(TLV_U_SIG, Words(PythonUsig(p))), Tlv(TLV_EHT, Words(PythonEht(p)))]
  }

  predicate PythonHasRate(p: Phy) {
    p.mode in {CCK, OFDM} && p.rate != 0
  }

  function PythonContent(r: Record): Content
    requires RecordOk(r)
  {
    var signal := if r.rssi.Some? then r.rssi.value else -128;
    Content([Some([Flag(r.badFcs, 0x40)]),
             if r.phy.Some? && PythonHasRate(r.phy.value) then Some([r.phy.value.rate]) else None,
             Some(PutLe16(r.frequency) + PutLe16(if r.low then 0x80 + 0x20 else 0x100 + 0x40)),
             Some([signal % 256]),
             if r.phy.Some? && r.phy.value.mode in {HT, HT_GF} then Some(PythonMcs(r.phy.value)) else None,
             if r.phy.Some? && r.phy.value.mode == VHT then Some(PythonVht(r.phy.value)) else None,
             if r.phy.Some? && r.phy.value.mode in {HE_SU, HE_EXT_SU, HE_TB, HE_MU} then Some(PythonHe(r.phy.value))
             else None],
            if r.phy.Some? && r.phy.value.mode in {EHT_SU, EHT_TRIG, EHT_MU} then PythonTlvs(r.phy.value) else [])
  }

  // ---------------------------------------------------------------- C's fields

  function CMcs(p: Phy): (b: Bytes)
    ensures |b| == 3
  {
    [7, Flag(p.width == 40, 1) + Flag(p.gi != 0, 4), p.mcs]
  }

  function CVht(p: Phy): (b: Bytes)
    ensures |b| == 12
  {
    [0x45, 0, Flag(p.stbc, 1) + Flag(p.gi != 0, 4), CVhtWidth(p.width), 16 * (p.mcs % 16) + p.nss % 16,
     0, 0, 0, Flag(p.ldpc, 1), 0, 0, 0]
  }

  function CVhtWidth(width: nat): Byte {
    if width == 160 then 11 else if width == 80 then 4 else if width == 40 then 1 else 0
  }

  function CHeWidth(width: nat): nat {
    if width == 160 then 3 else if width == 80 then 2 else if width == 40 then 1 else 0
  }

  function CHeAllocation(p: Phy): (code: nat)
    ensures code <= 10
  {
    if p.mode == HE_MU || p.mode == HE_TB then
      if p.ruTones == 26 then 4
      else if p.ruTones == 52 then 5
      else if p.ruTones == 106 then 6
      else if p.ruTones == 242 then 7
      else if p.ruTones == 484 then 8
      else if p.ruTones == 996 then 9
      else if p.ruTones == 1992 then 10
      else CHeWidth(p.width)
    else if p.mode == HE_EXT_SU then (if p.ruTones == 106 then 6 else Flag(p.width == 40, 1))
    else CHeWidth(p.width)
  }

  /** C falls back from the space-time streams to the spatial ones, and to one. */
  function CStreams(p: Phy): Byte {
    if p.nsts > 0 then p.nsts else if p.nss > 0 then p.nss else 1
  }

  function CHe(p: Phy): (b: Bytes)
    ensures |b| == 12
  {
    var format := if p.mode == HE_EXT_SU then 1 else if p.mode == HE_MU then 2 else if p.mode == HE_TB then 3 else 0;
    var offset := if p.mode == HE_MU || p.mode == HE_TB then 0x4000 + 256 * (p.ruOffset % 64) else 0;
    SixWords(format + 0x42E0, 2 + offset,
             256 * (p.mcs % 16) + Flag(p.dcm, 0x1000) + Flag(p.ldpc, 0x2000) + Flag(p.stbc, 0x8000),
             0, CHeAllocation(p) % 16 + 16 * (p.gi % 4), CStreams(p) % 16)
  }

  /** The switch on the width: its bandwidth and RU codes, or neither. */
  datatype WidthCodes = Codes(bandwidth: nat, ru: nat) | Unknown

  function CWidth(width: nat): (c: WidthCodes)
    ensures c.Codes? ==> c.bandwidth <= 4 && c.ru <= 7
  {
    match width
    case 20 => Codes(0, 3)
    case 40 => Codes(1, 4)
    case 80 => Codes(2, 5)
    case 160 => Codes(3, 6)
    case 320 => Codes(4, 7)
    case _ => Unknown
  }

  function CUsig(p: Phy): (ws: seq<nat>)
    ensures |ws| == 3 && forall i :: 0 <= i < 3 ==> ws[i] < U32_LIMIT
  {
    [if CWidth(p.width).Codes? then 2 + 0x8000 * CWidth(p.width).bandwidth else 0, 0, 0]
  }

  function CUser(p: Phy): (w: nat)
    ensures w < U32_LIMIT
  {
    var nss := if p.nss > 0 then p.nss else 1;
    0x96 + 0x10_0000 * (p.mcs % 16) + 0x100_0000 * ((nss - 1) % 16) + Flag(p.ldpc, 0x8_0000)
  }

  function CEht(p: Phy): (ws: seq<nat>)
    ensures |ws| == 11 && forall i :: 0 <= i < 11 ==> ws[i] < U32_LIMIT
  {
    var sized := CWidth(p.width).Codes? && p.mode == EHT_SU;
    [4 + Flag(sized, 0x40_0000), 128 * (p.gi % 4), if sized then CWidth(p.width).ru else 0,
     0, 0, 0, 0, 0, 0, 0, CUser(p)]
  }

  function CTlvs(p: Phy): (ts: seq<Tlv>)
    ensures |ts| == 2 && TlvOk(ts[0]) && TlvOk(ts[1]) && |ts[0].data| == 12 && |ts[1].data| == 44
  {
    [Tlv(TLV_U_SIG, Words(CUsig(p))), Tlv(TLV_EHT, Words(CEht(p)))]
  }

  predicate CHasEht(p: Phy) {
    p.mode == EHT_SU || p.mode == EHT_TRIG || p.mode == EHT_MU
  }

  /** A missing signal is -100, by the decoder. */
  function CContent(r: Record): Content
    requires RecordOk(r)
  {
    Content([Some([Flag(r.badFcs, 0x40)]),
             if r.phy.Some? && (r.phy.value.mode == CCK || r.phy.value.mode == OFDM) && r.phy.value.rate > 0
             then Some([r.phy.value.rate]) else None,
             Some(PutLe16(r.frequency) + PutLe16(if r.low then 0xA0 else 0x140)),
             Some([(if r.rssi.Some? then r.rssi.value else -100) % 256]),
             if r.phy.Some? && (r.phy.value.mode == HT || r.phy.value.mode == HT_GF) then Some(CMcs(r.phy.value))
             else None,
             if r.phy.Some? && r.phy.value.mode == VHT then Some(CVht(r.phy.value)) else None,
             if r.phy.Some? && HE_SU <= r.phy.value.mode <= HE_MU then Some(CHe(r.phy.value)) else None],
            if r.phy.Some? && CHasEht(r.phy.value) then CTlvs(r.phy.value) else [])
  }

  // ---------------------------------------------------------------- both

  function ContentOf(host: Host, r: Record): Content
    requires RecordOk(r)
  {
    match host
    case Python => PythonContent(r)
    case C => CContent(r)
  }

  /** Which fields and items the modes have, by the hardware's numbers: 0 and 1 legacy, 2 and 3 HT, 4
      VHT, 8 to 11 HE, 13 to 15 EHT; and the format that the HE field names. */
  lemma {:induction false} ModeFields(host: Host, r: Record)
    requires RecordOk(r) && r.phy.Some?
    ensures var c, m := ContentOf(host, r), r.phy.value.mode;
            && |c.fields| == 7 && c.fields[0].Some? && c.fields[2].Some? && c.fields[3].Some?
            && (c.fields[1].Some? <==> m <= 1 && r.phy.value.rate != 0)
            && (c.fields[4].Some? <==> m == 2 || m == 3) && (c.fields[5].Some? <==> m == 4)
            && (c.fields[6].Some? <==> 8 <= m <= 11) && (c.tlvs != [] <==> 13 <= m <= 15)
            && (c.fields[6].Some? ==>
                  && |c.fields[6].value| == 12
                  && c.fields[6].value[0] % 4 == (match m case 9 => 1 case 11 => 2 case 10 => 3 case _ => 0))
            && (c.tlvs != [] ==> |c.tlvs| == 2 && c.tlvs[0].kind == 33 && c.tlvs[1].kind == 34)
  {
    var m := r.phy.value.mode;
    if host.Python? {
      assert 13 <= m <= 15 ==> PythonTlvs(r.phy.value) != [];
    } else {
      assert 13 <= m <= 15 ==> CTlvs(r.phy.value) != [];
    }
  }

  /** No header is longer than 112 octets, whatever the record. */
  lemma {:induction false} ContentFits(host: Host, r: Record)
    requires RecordOk(r)
    ensures Fits(ContentOf(host, r)) && |Header(ContentOf(host, r))| <= 112
  {
    ContentSized(host, r);
    BodyBound(ContentOf(host, r));
  }

  ghost predicate SizedContent(c: Content) {
    && ContentOk(c) && |c.tlvs| in {0, 2}
    && (c.tlvs != [] ==> |c.tlvs[0].data| == 12 && |c.tlvs[1].data| == 44)
  }

  lemma {:induction false} PythonSized(r: Record)
    requires RecordOk(r)
    ensures SizedContent(PythonContent(r))
  {
  }

  lemma {:induction false} CSized(r: Record)
    requires RecordOk(r)
    ensures SizedContent(CContent(r))
  {
  }

  lemma {:induction false} ContentSized(host: Host, r: Record)
    requires RecordOk(r)
    ensures SizedContent(ContentOf(host, r))
  {
    match host
    case Python => PythonSized(r);
    case C => CSized(r);
  }

  function HeaderOf(host: Host, r: Record): Bytes
    requires RecordOk(r)
  {
    ContentFits(host, r);
    Header(ContentOf(host, r))
  }

  // ---------------------------------------------------------------- where the hosts agree

  /** VHT: a width both know, and at least one stream. */
  predicate CommonVht(p: Phy) {
    p.width in {20, 40, 80, 160} && p.nss > 0
  }

  /** HE: space-time streams, or a count of spatial ones that C stores as zero. */
  predicate CommonHe(p: Phy) {
    p.nsts > 0 || (p.nss > 0 && p.nss % 16 == 0)
  }

  /** The records both hosts write alike: known signal, and what the mode asks for. */
  predicate Common(r: Record) {
    && r.rssi.Some?
    && (r.phy.Some? ==>
          && (r.phy.value.mode == VHT ==> CommonVht(r.phy.value))
          && (HE_SU <= r.phy.value.mode <= HE_MU ==> CommonHe(r.phy.value))
          && (CHasEht(r.phy.value) ==> r.phy.value.width != 0))
  }

  lemma {:induction false} SameVhtExactly(p: Phy)
    ensures PythonVht(p) == CVht(p) <==> CommonVht(p)
  {
    var a, b := PythonVht(p), CVht(p);
    assert a[4] == b[4] <==> p.nss > 0;
    assert a[3] == b[3] <==> p.width in {20, 40, 80, 160};
    assert a == b <==> a[3] == b[3] && a[4] == b[4];
  }

  lemma {:induction false} SameAllocation(p: Phy)
    ensures PythonHeAllocation(p) == CHeAllocation(p)
  {
  }

  lemma {:induction false} SameHeExactly(p: Phy)
    ensures PythonHe(p) == CHe(p) <==> CommonHe(p)
  {
    SameAllocation(p);
    var a, b := PythonHe(p), CHe(p);
    assert forall i :: 0 <= i < 12 && i != 10 ==> a[i] == b[i];
    assert a[10] == b[10] <==> CommonHe(p);
  }

  lemma {:induction false} SameTlvsExactly(p: Phy)
    ensures PythonTlvs(p) == CTlvs(p) <==> p.width != 0
  {
    if p.width == 0 {
      WordsBegin(PythonUsig(p));
      WordsBegin(CUsig(p));
      assert PythonTlvs(p)[0].data[0] != CTlvs(p)[0].data[0];
    } else {
      SameWidth(p);
      SameEht(p);
    }
  }

  lemma {:induction false} SameWidth(p: Phy)
    requires p.width != 0
    ensures PythonUsig(p) == CUsig(p)
    ensures CWidth(p.width) == if p.width in RU_MRU_SIZE_CODE
                               then Codes(USIG_BW_CODE[p.width], RU_MRU_SIZE_CODE[p.width])
                               else Unknown
  {
  }

  lemma {:induction false} SameEht(p: Phy)
    requires p.width != 0
    ensures PythonEht(p) == CEht(p)
  {
    SameWidth(p);
    assert PythonUser(p) == CUser(p);
    assert forall i :: 0 <= i < 11 ==> PythonEht(p)[i] == CEht(p)[i];
  }

  lemma {:induction false} ByRow(a: Content, b: Content)
    requires |a.fields| == |b.fields| == ROWS
    ensures a == b <==> (forall i :: 0 <= i < ROWS ==> a.fields[i] == b.fields[i]) && a.tlvs == b.tlvs
  {
    if forall i :: 0 <= i < ROWS ==> a.fields[i] == b.fields[i] {
      assert a.fields == b.fields;
    }
  }

  lemma {:induction false} SameRows(r: Record, i: nat)
    requires RecordOk(r) && i < ROWS
    ensures i == 3 ==> (PythonContent(r).fields[i] == CContent(r).fields[i] <==> r.rssi.Some?)
    ensures i == 5 ==> (PythonContent(r).fields[i] == CContent(r).fields[i] <==>
                        (r.phy.Some? && r.phy.value.mode == VHT ==> CommonVht(r.phy.value)))
    ensures i == 6 ==> (PythonContent(r).fields[i] == CContent(r).fields[i] <==>
                        (r.phy.Some? && HE_SU <= r.phy.value.mode <= HE_MU ==> CommonHe(r.phy.value)))
    ensures i !in {3, 5, 6} ==> PythonContent(r).fields[i] == CContent(r).fields[i]
  {
    if r.phy.Some? {
      SameVhtExactly(r.phy.value);
      SameHeExactly(r.phy.value);
    }
  }

  /** The contents are equal exactly on the common records. */
  lemma {:induction false} SameContentExactly(r: Record)
    requires RecordOk(r)
    ensures PythonContent(r) == CContent(r) <==> Common(r)
  {
    forall i | 0 <= i < ROWS && i !in {3, 5, 6}
      ensures PythonContent(r).fields[i] == CContent(r).fields[i]
    {
      SameRows(r, i);
    }
    SameRows(r, 3);
    SameRows(r, 5);
    SameRows(r, 6);
    if r.phy.Some? {
      SameTlvsExactly(r.phy.value);
    }
    ByRow(PythonContent(r), CContent(r));
  }

  /** The two headers are the same octets exactly on the common records. */
  lemma {:induction false} SameHeaderExactly(r: Record)
    requires RecordOk(r)
    ensures HeaderOf(Python, r) == HeaderOf(C, r) <==> Common(r)
  {
    ContentFits(Python, r);
    ContentFits(C, r);
    SameContentExactly(r);
    HeaderRoundTrip(PythonContent(r), []);
    HeaderRoundTrip(CContent(r), []);
  }

  // ---------------------------------------------------------------- the present word

  lemma {:induction false} Powers()
    ensures Pow2(1) == 2 && Pow2(2) == 4 && Pow2(3) == 8 && Pow2(5) == 32
    ensures Pow2(19) == RT_MCS && Pow2(21) == RT_VHT && Pow2(23) == RT_HE && Pow2(28) == RT_TLV
  {
    assert Pow2(4) == 16 && Pow2(5) == 32;
    Pow2Add(5, 5);
    Pow2Add(10, 5);
    Pow2Add(15, 4);
    assert Pow2(20) == 2 * Pow2(19) && Pow2(21) == 2 * Pow2(20);
    assert Pow2(22) == 2 * Pow2(21) && Pow2(23) == 2 * Pow2(22);
    Pow2Add(23, 5);
  }

  /** The present word of a content, bit by bit. */
  lemma {:induction false} PresentWord(c: Content)
    requires |c.fields| == ROWS
    ensures Present(c) ==
            Flag(c.fields[0].Some?, RT_FLAGS) + Flag(c.fields[1].Some?, RT_RATE) + Flag(c.fields[2].Some?, RT_CHANNEL) +
            Flag(c.fields[3].Some?, RT_SIGNAL) + Flag(c.fields[4].Some?, RT_MCS) + Flag(c.fields[5].Some?, RT_VHT) +
            Flag(c.fields[6].Some?, RT_HE) + Flag(c.tlvs != [], RT_TLV)
  {
    Powers();
    var fs := c.fields;
    assert PresentUpTo(fs, 0) == 0;
    assert PresentUpTo(fs, 1) == Flag(fs[0].Some?, RT_FLAGS);
    assert PresentUpTo(fs, 2) == PresentUpTo(fs, 1) + Flag(fs[1].Some?, RT_RATE);
    assert PresentUpTo(fs, 3) == PresentUpTo(fs, 2) + Flag(fs[2].Some?, RT_CHANNEL);
    assert PresentUpTo(fs, 4) == PresentUpTo(fs, 3) + Flag(fs[3].Some?, RT_SIGNAL);
    assert PresentUpTo(fs, 5) == PresentUpTo(fs, 4) + Flag(fs[4].Some?, RT_MCS);
    assert PresentUpTo(fs, 6) == PresentUpTo(fs, 5) + Flag(fs[5].Some?, RT_VHT);
  }

  lemma {:induction false} PythonPresentWord(r: Record)
    requires RecordOk(r)
    ensures Present(PythonContent(r)) == RT_FLAGS + RT_CHANNEL + RT_SIGNAL +
            match r.phy
            case None => 0
            case Some(p) =>
              Flag(PythonHasRate(p), RT_RATE) + Flag(p.mode in {HT, HT_GF}, RT_MCS) + Flag(p.mode == VHT, RT_VHT) +
              Flag(p.mode in {HE_SU, HE_EXT_SU, HE_TB, HE_MU}, RT_HE) +
              Flag(p.mode in {EHT_SU, EHT_TRIG, EHT_MU}, RT_TLV)
  {
    PresentWord(PythonContent(r));
  }

  lemma {:induction false} CPresentWord(r: Record)
    requires RecordOk(r)
    ensures Present(CContent(r)) == RT_FLAGS + RT_CHANNEL + RT_SIGNAL +
            match r.phy
            case None => 0
            case Some(p) =>
              Flag((p.mode == CCK || p.mode == OFDM) && p.rate > 0, RT_RATE) +
              Flag(p.mode == HT || p.mode == HT_GF, RT_MCS) + Flag(p.mode == VHT, RT_VHT) +
              Flag(HE_SU <= p.mode <= HE_MU, RT_HE) + Flag(CHasEht(p), RT_TLV)
  {
    PresentWord(CContent(r));
  }

  // ---------------------------------------------------------------- Python's writer

  /** `if len(body) % 2 != 0: body.append(0)` */
  function Evened(body: Bytes): Bytes {
    if |body| % 2 != 0 then body + [0] else body
  }

  ghost predicate Grown(body: Bytes, fs: Fields, i: nat) {
    Sized(fs) && i <= ROWS && body == Place(fs, i)
  }

  lemma {:induction false} EvenedIs(body: Bytes, octets: Bytes)
    ensures Evened(body) + octets == body + (Zeros(Padding(HEADER + |body|, 2)) + octets)
    ensures body + octets == body + (Zeros(Padding(HEADER + |body|, 1)) + octets)
  {
    assert Zeros(0) == [] && Zeros(1) == [0];
  }

  lemma {:induction false} GrownBy(body: Bytes, fs: Fields, i: nat, octets: Bytes)
    requires i < ROWS && Grown(body, fs, i) && fs[i] == Some(octets)
    ensures Grown((if Align(i) == 2 then Evened(body) else body) + octets, fs, i + 1)
  {
    EvenedIs(body, octets);
  }

  lemma {:induction false} GrownAlready(body: Bytes, fs: Fields, i: nat)
    requires i < ROWS && Grown(body, fs, i) && fs[i].None?
    ensures Grown(body, fs, i + 1)
  {
  }

  /** Rate, channel and signal after the flags. */
  method PythonFront(r: Record, hasRate: bool) returns (body: Bytes)
    requires RecordOk(r) && hasRate == (r.phy.Some? && PythonHasRate(r.phy.value))
    ensures Grown(body, PythonContent(r).fields, 4)
  {
    ghost var fs := PythonContent(r).fields;
    ContentSized(Python, r);
    body := [if r.badFcs then 0x40 else 0];
    GrownBy([], fs, 0, body);
    Nil(body);
    if hasRate {
      GrownBy(body, fs, 1, [r.phy.value.rate]);
      body := body + [r.phy.value.rate];
    } else {
      GrownAlready(body, fs, 1);
    }
    var flags := if r.low then 0x80 + 0x20 else 0x100 + 0x40;
    GrownBy(body, fs, 2, PutLe16(r.frequency) + PutLe16(flags));
    body := Evened(body);
    body := body + (PutLe16(r.frequency) + PutLe16(flags));
    var signal := (if r.rssi.Some? then r.rssi.value else -128) % 256;
    GrownBy(body, fs, 3, [signal]);
    body := body + [signal];
  }

  /** The fields of the mode. */
  method PythonRest(r: Record, front: Bytes, hasMcs: bool, hasVht: bool, hasHe: bool) returns (body: Bytes)
    requires RecordOk(r) && Grown(front, PythonContent(r).fields, 4)
    requires hasMcs == (r.phy.Some? && r.phy.value.mode in {HT, HT_GF})
    requires hasVht == (r.phy.Some? && r.phy.value.mode == VHT)
    requires hasHe == (r.phy.Some? && r.phy.value.mode in {HE_SU, HE_EXT_SU, HE_TB, HE_MU})
    ensures Grown(body, PythonContent(r).fields, ROWS)
  {
    ghost var fs := PythonContent(r).fields;
    body := front;
    if hasMcs {
      GrownBy(body, fs, 4, PythonMcs(r.phy.value));
      body := body + PythonMcs(r.phy.value);
    } else {
      GrownAlready(body, fs, 4);
    }
    if hasVht {
      GrownBy(body, fs, 5, PythonVht(r.phy.value));
      body := Evened(body) + PythonVht(r.phy.value);
    } else {
      GrownAlready(body, fs, 5);
    }
    if hasHe {
      GrownBy(body, fs, 6, PythonHe(r.phy.value));
      body := Evened(body) + PythonHe(r.phy.value);
    } else {
      GrownAlready(body, fs, 6);
    }
  }

  /** The loop that aligns the TLV section. */
  method ToFour(rows: Bytes) returns (body: Bytes)
    ensures body == rows + Zeros(Padding(HEADER + |rows|, 4))
  {
    body := rows;
    Nil(rows);
    while |body| % 4 != 0
      invariant |rows| <= |body| && body == rows + Zeros(|body| - |rows|)
      invariant |body| - |rows| <= Padding(HEADER + |rows|, 4)
      decreases |rows| + 4 - |body|
    {
      assert Zeros(|body| + 1 - |rows|) == Zeros(|body| - |rows|) + [0];
      Assoc(rows, Zeros(|body| - |rows|), [0]);
      body := body + [0];
    }
  }

  lemma {:induction false} TwoTlvs(ts: seq<Tlv>)
    requires |ts| == 2 && TlvOk(ts[0]) && TlvOk(ts[1])
    ensures PutTlvs(ts) == PutTlv(ts[0]) + PutTlv(ts[1])
  {
    var ps := Pieces(ts);
    assert Join(ps, 2) == [];
    assert Join(ps, 1) == ps[1] + Join(ps, 2);
    Nil(ps[1]);
  }

  /** eht_tlvs: the U-SIG item, then the EHT item with its length. */
  method PythonEhtTlvs(p: Phy) returns (out: Bytes)
    ensures out == PutTlvs(PythonTlvs(p))
  {
    TwoTlvs(PythonTlvs(p));
    var usig := Words(PythonUsig(p));
    out := PutLe16(33) + PutLe16(|usig|) + usig;
    var eht := Words(PythonEht(p));
    out := out + (PutLe16(34) + PutLe16(|eht|) + eht);
  }

  /** The present word, and which field the mode asks for. */
  method PythonPresent(r: Record)
    returns (present: nat, hasRate: bool, hasMcs: bool, hasVht: bool, hasHe: bool, hasEht: bool)
    requires RecordOk(r)
    ensures present == Present(PythonContent(r))
    ensures hasRate == (r.phy.Some? && PythonHasRate(r.phy.value))
    ensures hasMcs == (r.phy.Some? && r.phy.value.mode in {HT, HT_GF})
    ensures hasVht == (r.phy.Some? && r.phy.value.mode == VHT)
    ensures hasHe == (r.phy.Some? && r.phy.value.mode in {HE_SU, HE_EXT_SU, HE_TB, HE_MU})
    ensures hasEht == (r.phy.Some? && r.phy.value.mode in {EHT_SU, EHT_TRIG, EHT_MU})
  {
    present := RT_FLAGS + RT_CHANNEL + RT_SIGNAL;
    hasRate, hasMcs, hasVht, hasHe, hasEht := false, false, false, false, false;
    if r.phy.Some? {
      var mode := r.phy.value.mode;
      if mode in {CCK, OFDM} && r.phy.value.rate != 0 {
        hasRate, present := true, present + RT_RATE;
      } else if mode in {HT, HT_GF} {
        hasMcs, present := true, present + RT_MCS;
      } else if mode == VHT {
        hasVht, present := true, present + RT_VHT;
      } else if mode in {HE_SU, HE_EXT_SU, HE_TB, HE_MU} {
        hasHe, present := true, present + RT_HE;
      } else if mode in {EHT_SU, EHT_TRIG, EHT_MU} {
        hasEht, present := true, present + RT_TLV;
      }
    }
    PythonPresentWord(r);
  }

  /** The TLV section, after the rows. */
  method PythonClose(rows: Bytes, p: Phy) returns (body: Bytes)
    ensures body == Closed(rows, PythonTlvs(p))
  {
    body := ToFour(rows);
    var tlvs := PythonEhtTlvs(p);
    body := body + tlvs;
  }

  /** radiotap: the body field by field, the TLVs last, then the fixed octets in front. */
  method WritePython(r: Record) returns (header: Bytes)
    requires RecordOk(r)
    ensures header == HeaderOf(Python, r)
  {
    var present, hasRate, hasMcs, hasVht, hasHe, hasEht := PythonPresent(r);
    var body := PythonFront(r, hasRate);
    body := PythonRest(r, body, hasMcs, hasVht, hasHe);
    if hasEht {
      body := PythonClose(body, r.phy.value);
    }
    ContentFits(Python, r);
    header := Fixed(HEADER + |body|, present) + body;
  }

  // ---------------------------------------------------------------- C's writer

  /** The first rows are in the buffer, from the eighth octet up to `off`. */
  ghost predicate Stored(buf: array<Byte>, off: nat, fs: Fields, i: nat)
    reads buf
  {
    && Sized(fs) && i <= ROWS && buf.Length == 128
    && off == HEADER + |Place(fs, i)| && off <= HEADER + Limit(i) <= 45 && buf[HEADER..off] == Place(fs, i)
  }

  lemma {:induction false} StoredAlready(buf: array<Byte>, off: nat, fs: Fields, i: nat)
    requires i < ROWS && Stored(buf, off, fs, i) && fs[i].None?
    ensures Stored(buf, off, fs, i + 1)
  {
  }

  lemma {:induction false} StoredBy(buf: array<Byte>, off: nat, fs: Fields, i: nat, octets: Bytes, before: Bytes)
    requires Sized(fs) && i < ROWS && fs[i] == Some(octets) && buf.Length == 128 && HEADER <= off <= 128
    requires before == Place(fs, i) && |before| <= Limit(i)
    requires buf[HEADER..off] == before + (Zeros(Padding(HEADER + |before|, Align(i))) + octets)
    ensures Stored(buf, off, fs, i + 1)
  {
  }

  lemma {:induction false} Appended(s: Bytes, from: nat, off: nat, b: Bytes)
    requires from <= off && off + |b| <= |s| && s[off..off + |b|] == b
    ensures s[from..off + |b|] == s[from..off] + b
  {
  }

  lemma {:induction false} Kept(s: Bytes, t: Bytes, from: nat, off: nat)
    requires from <= off <= |s| && off <= |t| && s[..off] == t[..off]
    ensures s[from..off] == t[from..off]
  {
    assert s[from..off] == s[..off][from..] && t[from..off] == t[..off][from..];
  }

  /** memcpy into the header buffer at an offset the caller then advances. */
  method Copy(buf: array<Byte>, off: nat, b: Bytes)
    requires off + |b| <= buf.Length
    modifies buf
    ensures buf[..off] == old(buf[..off]) && buf[off..off + |b|] == b
    ensures buf[off + |b|..] == old(buf[off + |b|..])
  {
    for k := 0 to |b|
      invariant forall j :: 0 <= j < off ==> buf[j] == old(buf[j])
      invariant forall j :: 0 <= j < k ==> buf[off + j] == b[j]
      invariant forall j :: off + |b| <= j < buf.Length ==> buf[j] == old(buf[j])
    {
      buf[off + k] := b[k];
    }
  }

  method Put(buf: array<Byte>, off: nat, b: Bytes) returns (next: nat)
    requires HEADER <= off && off + |b| <= buf.Length
    modifies buf
    ensures next == off + |b| && buf[HEADER..next] == old(buf[HEADER..off]) + b
  {
    ghost var was := buf[..];
    Copy(buf, off, b);
    next := off + |b|;
    Kept(buf[..], was, HEADER, off);
    Appended(buf[..], HEADER, off, b);
  }

  /** `if (off & 1) rt_buf[off++] = 0;` */
  method Even(buf: array<Byte>, off: nat) returns (next: nat)
    requires HEADER <= off < buf.Length
    modifies buf
    ensures next == off + off % 2 && buf[HEADER..next] == old(buf[HEADER..off]) + Zeros(off % 2)
  {
    next := off;
    Nil(buf[HEADER..off]);
    assert Zeros(0) == [] && Zeros(1) == [0];
    if off % 2 == 1 {
      next := Put(buf, off, [0]);
    }
  }

  /** rate, channel and signal after the flags. */
  method StoreFront(buf: array<Byte>, r: Record, hasRate: bool) returns (off: nat)
    requires RecordOk(r) && buf.Length == 128
    requires hasRate == CContent(r).fields[1].Some?
    modifies buf
    ensures Stored(buf, off, CContent(r).fields, 4)
  {
    ghost var fs := CContent(r).fields;
    ContentSized(C, r);
    assert Stored(buf, HEADER, fs, 0);
    off := StoreField(buf, HEADER, fs, 0, [if r.badFcs then 0x40 else 0]);
    if hasRate {
      off := StoreField(buf, off, fs, 1, [r.phy.value.rate]);
    } else {
      StoredAlready(buf, off, fs, 1);
    }
    off := StoreChannel(buf, off, r, fs);
    off := StoreField(buf, off, fs, 3, [(if r.rssi.Some? then r.rssi.value else -100) % 256]);
  }

  method StoreChannel(buf: array<Byte>, off: nat, r: Record, ghost fs: Fields) returns (next: nat)
    requires RecordOk(r) && Stored(buf, off, fs, 2)
    requires fs[2] == Some(PutLe16(r.frequency) + PutLe16(if r.low then 0xA0 else 0x140))
    modifies buf
    ensures Stored(buf, next, fs, 3)
  {
    ghost var before := buf[HEADER..off];
    next := Even(buf, off);
    var flags := if r.low then 0x80 + 0x20 else 0x100 + 0x40;
    next := Put(buf, next, PutLe16(r.frequency));
    next := Put(buf, next, PutLe16(flags));
    Gathered(before, Zeros(Padding(HEADER + |before|, 2)), PutLe16(r.frequency), PutLe16(flags));
    StoredBy(buf, next, fs, 2, PutLe16(r.frequency) + PutLe16(flags), before);
  }

  lemma {:induction false} Gathered(a: Bytes, b: Bytes, c: Bytes, d: Bytes)
    ensures ((a + b) + c) + d == a + (b + (c + d))
  {
  }

  /** One or more octets stored where no alignment is asked for. */
  method StoreField(buf: array<Byte>, off: nat, ghost fs: Fields, ghost i: nat, octets: Bytes) returns (next: nat)
    requires i < ROWS && Stored(buf, off, fs, i) && fs[i] == Some(octets) && Align(i) == 1
    modifies buf
    ensures Stored(buf, next, fs, i + 1)
  {
    ghost var before := buf[HEADER..off];
    next := Put(buf, off, octets);
    Nil(octets);
    assert Zeros(0) == [];
    StoredBy(buf, next, fs, i, octets, before);
  }

  method StoreMcs(buf: array<Byte>, off: nat, p: Phy, ghost fs: Fields) returns (next: nat)
    requires Stored(buf, off, fs, 4) && fs[4] == Some(CMcs(p))
    modifies buf
    ensures Stored(buf, next, fs, 5)
  {
    ghost var before := buf[HEADER..off];
    next := Put(buf, off, [7]);
    next := Put(buf, next, [(if p.width == 40 then 1 else 0) + (if p.gi != 0 then 4 else 0)]);
    next := Put(buf, next, [p.mcs]);
    Nil(CMcs(p));
    assert buf[HEADER..next] == before + CMcs(p);
    assert Zeros(0) == [];
    StoredBy(buf, next, fs, 4, CMcs(p), before);
  }

  /** Four stores next to each other. */
  method StoreFour(buf: array<Byte>, off: nat, a: Byte, b: Byte, c: Byte, d: Byte) returns (next: nat)
    requires HEADER <= off && off + 4 <= buf.Length
    modifies buf
    ensures next == off + 4 && buf[HEADER..next] == old(buf[HEADER..off]) + [a, b, c, d]
  {
    ghost var was := buf[..];
    buf[off], buf[off + 1], buf[off + 2], buf[off + 3] := a, b, c, d;
    next := off + 4;
    Kept(buf[..], was, HEADER, off);
    Appended(buf[..], HEADER, off, [a, b, c, d]);
  }

  lemma {:induction false} Gathered5(a: Bytes, pad: Bytes, b: Bytes, c: Bytes, d: Bytes)
    ensures (((a + pad) + b) + c) + d == a + (pad + ((b + c) + d))
  {
  }

  /** Twelve octets stored in three steps after the alignment. */
  lemma {:induction false} TwelveMore(buf: array<Byte>, off: nat, before: Bytes, fs: Fields, i: nat,
                                      a: Bytes, b: Bytes, c: Bytes)
    requires Sized(fs) && i in {5, 6} && fs[i] == Some((a + b) + c) && buf.Length == 128 && HEADER <= off <= 128
    requires before == Place(fs, i) && |before| <= Limit(i)
    requires buf[HEADER..off] == (((before + Zeros(Padding(HEADER + |before|, 2))) + a) + b) + c
    ensures Stored(buf, off, fs, i + 1)
  {
    Gathered5(before, Zeros(Padding(HEADER + |before|, 2)), a, b, c);
    StoredBy(buf, off, fs, i, (a + b) + c, before);
  }

  method StoreVht(buf: array<Byte>, off: nat, p: Phy, ghost fs: Fields) returns (next: nat)
    requires Stored(buf, off, fs, 5) && fs[5] == Some(CVht(p))
    modifies buf
    ensures Stored(buf, next, fs, 6)
  {
    ghost var before := buf[HEADER..off];
    next := Even(buf, off);
    var flags := (if p.stbc then 1 else 0) + (if p.gi != 0 then 4 else 0);
    var width := CVhtWidth(p.width);
    var user := 16 * (p.mcs % 16) + p.nss % 16;
    var coding := if p.ldpc then 1 else 0;
    next := StoreFour(buf, next, 0x45, 0, flags, width);
    next := StoreFour(buf, next, user, 0, 0, 0);
    next := StoreFour(buf, next, coding, 0, 0, 0);
    assert CVht(p) == ([0x45, 0, flags, width] + [user, 0, 0, 0]) + [coding, 0, 0, 0];
    TwelveMore(buf, next, before, fs, 5, [0x45, 0, flags, width], [user, 0, 0, 0], [coding, 0, 0, 0]);
  }

  /** Two 16-bit words, least significant octets first. */
  function TwoWords(d: nat, e: nat): (b: Bytes)
    requires d < 0x1_0000 && e < 0x1_0000
    ensures |b| == 4
  {
    [d % 256, d / 256, e % 256, e / 256]
  }

  method StoreWords(buf: array<Byte>, off: nat, d: nat, e: nat) returns (next: nat)
    requires d < 0x1_0000 && e < 0x1_0000 && HEADER <= off && off + 4 <= buf.Length
    modifies buf
    ensures next == off + 4 && buf[HEADER..next] == old(buf[HEADER..off]) + TwoWords(d, e)
  {
    next := StoreFour(buf, off, d % 256, d / 256, e % 256, e / 256);
  }

  lemma {:induction false} SixWordsIs(d1: nat, d2: nat, d3: nat, d4: nat, d5: nat, d6: nat)
    requires d1 < 0x1_0000 && d2 < 0x1_0000 && d3 < 0x1_0000 && d4 < 0x1_0000 && d5 < 0x1_0000 && d6 < 0x1_0000
    ensures SixWords(d1, d2, d3, d4, d5, d6) == (TwoWords(d1, d2) + TwoWords(d3, d4)) + TwoWords(d5, d6)
  {
  }

  /** he_data1 to he_data6. */
  method HeWords(p: Phy) returns (d1: nat, d2: nat, d3: nat, d5: nat, d6: nat)
    ensures d1 < 0x1_0000 && d2 < 0x1_0000 && d3 < 0x1_0000 && d5 < 0x1_0000 && d6 < 0x1_0000
    ensures CHe(p) == SixWords(d1, d2, d3, 0, d5, d6)
  {
    var format := if p.mode == HE_EXT_SU then 1 else if p.mode == HE_MU then 2 else if p.mode == HE_TB then 3 else 0;
    d1 := format + 0x20 + 0x40 + 0x80 + 0x200 + 0x4000;
    d2 := 2;
    if p.mode == HE_MU || p.mode == HE_TB {
      d2 := d2 + 0x4000 + 256 * (p.ruOffset % 64);
    }
    d3 := 256 * (p.mcs % 16) + Flag(p.dcm, 0x1000) + Flag(p.ldpc, 0x2000) + Flag(p.stbc, 0x8000);
    d5 := CHeAllocation(p) % 16 + 16 * (p.gi % 4);
    d6 := CStreams(p) % 16;
  }

  method StoreHe(buf: array<Byte>, off: nat, p: Phy, ghost fs: Fields) returns (next: nat)
    requires Stored(buf, off, fs, 6) && fs[6] == Some(CHe(p))
    modifies buf
    ensures Stored(buf, next, fs, 7)
  {
    ghost var before := buf[HEADER..off];
    var d1, d2, d3, d5, d6 := HeWords(p);
    SixWordsIs(d1, d2, d3, 0, d5, d6);
    next := Even(buf, off);
    next := StoreWords(buf, next, d1, d2);
    next := StoreWords(buf, next, d3, 0);
    next := StoreWords(buf, next, d5, d6);
    TwelveMore(buf, next, before, fs, 6, TwoWords(d1, d2), TwoWords(d3, 0), TwoWords(d5, d6));
  }

  /** `while (off & 3) rt_buf[off++] = 0;` */
  method Four(buf: array<Byte>, off: nat) returns (next: nat)
    requires HEADER <= off && off + 3 <= buf.Length
    modifies buf
    ensures next == off + Padding(off, 4) && buf[HEADER..next] == old(buf[HEADER..off]) + Zeros(Padding(off, 4))
  {
    ghost var rows := buf[HEADER..off];
    next := off;
    Nil(rows);
    while next % 4 != 0
      invariant off <= next <= off + Padding(off, 4) && buf[HEADER..next] == rows + Zeros(next - off)
      decreases off + 4 - next
    {
      assert Zeros(next + 1 - off) == Zeros(next - off) + [0];
      Assoc(rows, Zeros(next - off), [0]);
      next := Put(buf, next, [0]);
    }
  }

  ghost predicate Word32(ws: seq<nat>) {
    forall i :: 0 <= i < |ws| ==> ws[i] < U32_LIMIT
  }

  lemma {:induction false} WordsNext(ws: seq<nat>, i: nat, before: Bytes)
    requires Word32(ws) && i < |ws|
    ensures before + Words(ws[..i + 1]) == (before + Words(ws[..i])) + PutLe32(ws[i])
  {
    assert ws[..i + 1][..i] == ws[..i];
    Assoc(before, Words(ws[..i]), PutLe32(ws[i]));
  }

  /** One item: its type and length, then an array of words, octets at a time. */
  method StoreItem(buf: array<Byte>, off: nat, kind: nat, ws: array<nat>) returns (next: nat)
    requires kind < 0x1_0000 && ws.Length <= 11 && Word32(ws[..])
    requires HEADER <= off && off + 4 + 4 * ws.Length <= buf.Length
    modifies buf
    ensures next == off + 4 + 4 * ws.Length
    ensures buf[HEADER..next] == old(buf[HEADER..off]) + PutTlv(Tlv(kind, Words(ws[..])))
  {
    ghost var words := ws[..];
    next := Put(buf, off, PutLe16(kind));
    next := Put(buf, next, PutLe16(4 * ws.Length));
    ghost var before := buf[HEADER..next];
    Nil(before);
    for i := 0 to ws.Length
      invariant ws[..] == words && next == off + 4 + 4 * i && buf[HEADER..next] == before + Words(words[..i])
    {
      WordsNext(words, i, before);
      next := Put(buf, next, PutLe32(ws[i]));
    }
    assert words[..ws.Length] == words;
    Gathered4(old(buf[HEADER..off]), PutLe16(kind), PutLe16(4 * ws.Length), Words(words));
  }

  lemma {:induction false} Gathered4(a: Bytes, b: Bytes, c: Bytes, d: Bytes)
    ensures ((a + b) + c) + d == a + ((b + c) + d)
  {
  }

  /** eht[11], set word by word. */
  method FillEht(p: Phy) returns (eht: array<nat>)
    ensures fresh(eht) && eht[..] == CEht(p)
  {
    eht := new nat[11](_ => 0);
    eht[0] := 4;
    eht[1] := 128 * (p.gi % 4);
    if CWidth(p.width).Codes? && p.mode == EHT_SU {
      eht[0] := eht[0] + 0x40_0000;
      eht[2] := CWidth(p.width).ru;
    }
    eht[10] := CUser(p);
  }

  method StoreEht(buf: array<Byte>, off: nat, p: Phy) returns (next: nat)
    requires HEADER <= off <= 45 && buf.Length == 128
    modifies buf
    ensures HEADER <= next <= 112
    ensures buf[HEADER..next] == Closed(old(buf[HEADER..off]), CTlvs(p))
  {
    TwoTlvs(CTlvs(p));
    next := Four(buf, off);
    var usig := new nat[3](_ => 0);
    if CWidth(p.width).Codes? {
      usig[0] := 2 + 0x8000 * CWidth(p.width).bandwidth;
    }
    assert usig[..] == CUsig(p);
    next := StoreItem(buf, next, 33, usig);
    var eht := FillEht(p);
    next := StoreItem(buf, next, 34, eht);
    ghost var rows := old(buf[HEADER..off]);
    assert HEADER + |rows| == off;
    Assoc(rows + Zeros(Padding(off, 4)), PutTlv(CTlvs(p)[0]), PutTlv(CTlvs(p)[1]));
  }

  method StoreRest(buf: array<Byte>, front: nat, r: Record) returns (off: nat)
    requires RecordOk(r) && Stored(buf, front, CContent(r).fields, 4)
    modifies buf
    ensures Stored(buf, off, CContent(r).fields, ROWS)
  {
    ghost var fs := CContent(r).fields;
    off := front;
    if r.phy.Some? && (r.phy.value.mode == HT || r.phy.value.mode == HT_GF) {
      off := StoreMcs(buf, off, r.phy.value, fs);
    } else {
      StoredAlready(buf, off, fs, 4);
    }
    if r.phy.Some? && r.phy.value.mode == VHT {
      off := StoreVht(buf, off, r.phy.value, fs);
    } else {
      StoredAlready(buf, off, fs, 5);
    }
    if r.phy.Some? && HE_SU <= r.phy.value.mode <= HE_MU {
      off := StoreHe(buf, off, r.phy.value, fs);
    } else {
      StoredAlready(buf, off, fs, 6);
    }
  }

  /** The present word, one `if` for each field. */
  method CPresent(r: Record) returns (present: nat)
    requires RecordOk(r)
    ensures present == Present(CContent(r))
  {
    present := RT_FLAGS + RT_CHANNEL + RT_SIGNAL;
    if r.phy.Some? {
      var p := r.phy.value;
      if (p.mode == CCK || p.mode == OFDM) && p.rate > 0 {
        present := present + RT_RATE;
      }
      if p.mode == HT || p.mode == HT_GF {
        present := present + RT_MCS;
      }
      if p.mode == VHT {
        present := present + RT_VHT;
      }
      if HE_SU <= p.mode <= HE_MU {
        present := present + RT_HE;
      }
      if CHasEht(p) {
        present := present + RT_TLV;
      }
    }
    CPresentWord(r);
  }

  /** pcap_writer_write_frame: the fields stored one after the other, the fixed octets last. Nothing
      is stored past octet 112. */
  method WriteC(r: Record) returns (header: Bytes)
    requires RecordOk(r)
    ensures header == HeaderOf(C, r) && |header| <= 112
  {
    var buf := new Byte[128](_ => 0);
    var present := CPresent(r);
    var off := StoreBody(buf, r);
    ContentFits(C, r);
    header := StoreFixed(buf, off, CContent(r), present);
  }

  method StoreBody(buf: array<Byte>, r: Record) returns (off: nat)
    requires RecordOk(r) && buf.Length == 128
    modifies buf
    ensures HEADER <= off <= 112 && ContentOk(CContent(r)) && buf[HEADER..off] == Body(CContent(r))
  {
    ContentSized(C, r);
    var hasRate := r.phy.Some? && (r.phy.value.mode == CCK || r.phy.value.mode == OFDM) && r.phy.value.rate > 0;
    off := StoreFront(buf, r, hasRate);
    off := StoreRest(buf, off, r);
    assert buf[HEADER..off] == Place(CContent(r).fields, |CContent(r).fields|);
    if r.phy.Some? && CHasEht(r.phy.value) {
      off := StoreEht(buf, off, r.phy.value);
    }
  }

  method StoreFixed(buf: array<Byte>, off: nat, ghost c: Content, present: nat) returns (header: Bytes)
    requires Fits(c) && HEADER <= off <= buf.Length && buf[HEADER..off] == Body(c) && present == Present(c)
    modifies buf
    ensures header == Header(c)
  {
    PresentBound(c.fields, ROWS);
    TlvPower();
    ghost var was := buf[..];
    Copy(buf, 0, Fixed(off, present));
    header := buf[..off];
    assert header == buf[..HEADER] + buf[HEADER..off];
    assert buf[HEADER..off] == buf[HEADER..][..off - HEADER] == was[HEADER..][..off - HEADER] == was[HEADER..off];
  }

  /** The two writers' octets agree exactly on the common records, and each reads back to its content. */
  method WriteBoth(r: Record, frame: Bytes) returns (python: Bytes, c: Bytes)
    requires RecordOk(r)
    ensures python == c <==> Common(r)
    ensures ReadHeader(python + frame) == Some((PythonContent(r), |python|))
    ensures ReadHeader(c + frame) == Some((CContent(r), |c|))
  {
    python := WritePython(r);
    c := WriteC(r);
    SameHeaderExactly(r);
    ContentFits(Python, r);
    ContentFits(C, r);
    HeaderRoundTrip(PythonContent(r), frame);
    HeaderRoundTrip(CContent(r), frame);
  }
}
