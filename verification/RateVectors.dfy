/** The rate words of a received frame: decode_rxv (rxd.py, c/mt7921_rxd.c) and decode_prxv
    (rxd_connac3.py, c/mt7921_rxd_connac3.c), and when the radiotap headers made from them on the two
    hosts agree. Fields that radiotap does not carry are not decoded. */
module RateVectors {
  import opened Wire
  import opened Radiotap
  import opened RadiotapWriters
  import RxDecode

  type Chip = RxDecode.Chip

  // ---------------------------------------------------------------- the fields

  /** `width` is the bandwidth code, `ru` the allocation index, `er106` the 106-tone flag. */
  datatype Bits = Bits(idx: nat, nsts: nat, stbc: nat, gi: nat, mode: nat, width: nat, ru: nat,
                       ldpc: bool, dcm: bool, er106: bool)

  predicate InRange(b: Bits) {
    b.idx < 128 && b.nsts < 16 && b.stbc < 4 && b.gi < 4 && b.mode < 16 && b.width < 8 && b.ru < 512
  }

  /** connac2 takes words 0 and 1 of its vector, connac3 words 0 and 2. */
  function PythonBits(chip: Chip, v: nat, w: nat): (b: Bits)
    ensures InRange(b)
  {
    var idx := Field(v, 1, 0x80);
    if chip.MT7921? then
      Bits(idx, Field(v, 0x80, 8), Field(v, 0x40_0000, 4), Field(v, 0x8000, 4), Field(v, 0x100_0000, 16),
           Field(v, 0x1000, 8), (w % 16) * 16 + Field(v, 0x1000_0000, 16), Bit(v, 0x800), Bit(idx, 0x10), Bit(v, 0x20))
    else
      Bits(idx, Field(v, 0x80, 16), Field(w, 0x200, 4), Field(w, 8, 4), Field(w, 0x800, 16),
           Field(w, 1, 8), Field(v, 0x40_0000, 512), Bit(v, 0x1000), Bit(w, 0x20), Bit(idx, 0x20))
  }

  function CBits(chip: Chip, v: nat, w: nat): (b: Bits)
    ensures InRange(b)
  {
    var idx := v % 128;
    if chip.MT7921? then
      Bits(idx, v / 128 % 8, v / 0x40_0000 % 4, v / 0x8000 % 4, v / 0x100_0000 % 16, v / 0x1000 % 8,
           16 * (w % 16) + v / 0x1000_0000 % 16, v / 0x800 % 2 == 1, idx / 16 % 2 == 1, v / 32 % 2 == 1)
    else
      Bits(idx, v / 128 % 16, w / 0x200 % 4, w / 8 % 4, w / 0x800 % 16, w % 8, v / 0x40_0000 % 512,
           v / 0x1000 % 2 == 1, w / 32 % 2 == 1, idx / 32 % 2 == 1)
  }

  lemma {:induction false} SameBits(chip: Chip, v: nat, w: nat)
    ensures PythonBits(chip, v, w) == CBits(chip, v, w)
  {
  }

  // ---------------------------------------------------------------- Python's decoders

  const BW_MHZ: map<nat, nat> := map[0 := 20, 1 := 40, 2 := 80, 3 := 160]
  const FRAME_MODE_TO_MHZ: map<nat, nat> := map[0 := 20, 1 := 40, 2 := 80, 3 := 160, 4 := 320, 5 := 320]
  const FULL_WIDTH_TONES: map<nat, nat> := map[20 := 242, 40 := 484, 80 := 996, 160 := 1992]

  /** Rates in units of 500 kb/s; hardware indices. */
  const CCK_RATES: map<nat, Byte> := map[0 := 2, 1 := 4, 2 := 11, 3 := 22]
  const OFDM_RATES: map<nat, Byte> := map[11 := 12, 15 := 18, 10 := 24, 14 := 36, 9 := 48, 13 := 72, 8 := 96, 12 := 108]

  /** The rates that radiotap writes are those of the two legacy modes; bit 2 of a CCK index is the
      short preamble. */
  function PythonRate(mode: nat, mcs: nat): Byte {
    var cck := if Bit(mcs, 4) then mcs - 4 else mcs;
    if mode == CCK then (if cck in CCK_RATES then CCK_RATES[cck] else 0)
    else if mode == OFDM then (if mcs in OFDM_RATES then OFDM_RATES[mcs] else 0)
    else 0
  }

  /** A missing width is zero. */
  function PythonMhz(chip: Chip, code: nat): nat {
    if chip.MT7921? then (if code in BW_MHZ then BW_MHZ[code] else 0)
    else if code in FRAME_MODE_TO_MHZ then FRAME_MODE_TO_MHZ[code] else 0
  }

  function PythonFullTones(chip: Chip, mhz: nat): nat {
    if chip.MT7921? then (if mhz == 160 then 1992 else if mhz == 80 then 996 else if mhz == 40 then 484 else 242)
    else if mhz in FULL_WIDTH_TONES then FULL_WIDTH_TONES[mhz] else 242
  }

  /** The tones and the offset of an allocation index. */
  function PythonAllocated(chip: Chip, ru: nat, mhz: nat): (nat, Byte) {
    if ru <= 36 then (26, ru)
    else if ru <= 52 then (52, ru - 37)
    else if ru <= 60 then (106, ru - 53)
    else if ru <= 64 then (242, ru - 61)
    else if ru <= 66 then (484, ru - 65)
    else if ru == 67 then (996, 0)
    else if ru == 68 then (1992, 0)
    else (PythonFullTones(chip, mhz), 0)
  }

  function PythonTones(chip: Chip, b: Bits, mhz: nat): (nat, Byte) {
    if b.mode in {HE_MU, HE_TB} then PythonAllocated(chip, b.ru, mhz)
    else if chip.MT7921? && b.mode == HE_EXT_SU then
      (if mhz == 40 && b.er106 then 106 else if mhz == 40 then 484 else 242, 0)
    else if chip.MT7925? && b.mode == HE_EXT_SU && b.width == 1 && b.er106 then (106, 0)
    else (PythonFullTones(chip, mhz), 0)
  }

  function PythonPhy(chip: Chip, b: Bits): Phy
    requires InRange(b)
  {
    var n := b.nsts + 1;
    var nss := if chip.MT7921? && b.stbc != 0 && n > 1 then n / 2 else n;
    var short := b.mode in {VHT, HE_SU, HE_EXT_SU, HE_TB, HE_MU} ||
                 (chip.MT7925? && b.mode in {EHT_SU, EHT_TRIG, EHT_MU});
    var mcs := if short then b.idx % 16 else b.idx;
    var mhz := PythonMhz(chip, b.width);
    var (tones, offset) := PythonTones(chip, b, mhz);
    Phy(b.mode, PythonRate(b.mode, mcs), mhz, b.gi, mcs, nss, n, b.stbc != 0, b.ldpc, b.dcm, offset, tones)
  }

  // ---------------------------------------------------------------- C's decoders

  function CRate(mode: nat, mcs: nat): Byte {
    var cck := if mcs / 4 % 2 == 1 then mcs - 4 else mcs;
    if mode == CCK then
      if cck == 0 then 2 else if cck == 1 then 4 else if cck == 2 then 11 else if cck == 3 then 22 else 0
    else if mode == OFDM then
      if mcs == 11 then 12
      else if mcs == 15 then 18
      else if mcs == 10 then 24
      else if mcs == 14 then 36
      else if mcs == 9 then 48
      else if mcs == 13 then 72
      else if mcs == 8 then 96
      else if mcs == 12 then 108
      else 0
    else 0
  }

  /** connac2 starts from 20 MHz; the switch of connac3 has no width for codes 6 and 7. */
  function CMhz(chip: Chip, code: nat): nat {
    if chip.MT7921? then (if code == 1 then 40 else if code == 2 then 80 else if code == 3 then 160 else 20)
    else
      match code
      case 0 => 20
      case 1 => 40
      case 2 => 80
      case 3 => 160
      case 4 => 320
      case 5 => 320
      case _ => 0
  }

  function COffset(b: Bits): Byte {
    if b.mode == HE_MU || b.mode == HE_TB then
      if b.ru <= 36 then b.ru
      else if b.ru <= 52 then b.ru - 37
      else if b.ru <= 60 then b.ru - 53
      else if b.ru <= 64 then b.ru - 61
      else if b.ru <= 66 then b.ru - 65
      else 0
    else 0
  }

  predicate IsHe(mode: nat) {
    HE_SU <= mode <= HE_MU
  }

  predicate IsEht(mode: nat) {
    mode == EHT_SU || mode == EHT_TRIG || mode == EHT_MU
  }

  /** mt7921_phy_fill_rate sets the tones only where it computes a rate. */
  function CTones(b: Bits, mcs: nat, mhz: nat): nat {
    if !(IsHe(b.mode) || IsEht(b.mode)) || mcs > (if b.mode >= EHT_SU then 13 else 11) || mhz == 320 then 0
    else if b.mode == HE_MU || b.mode == HE_TB then
      if b.ru <= 36 then 26
      else if b.ru <= 52 then 52
      else if b.ru <= 60 then 106
      else if b.ru <= 64 then 242
      else if b.ru <= 66 then 484
      else if b.ru == 67 then 996
      else if b.ru == 68 then 1992
      else if mhz == 160 then 1992 else if mhz == 80 then 996 else if mhz == 40 then 484 else 242
    else if b.mode == HE_EXT_SU then
      if mhz == 40 && b.er106 then 106 else if mhz == 40 then 484 else 242
    else if mhz == 160 then 1992 else if mhz == 80 then 996 else if mhz == 40 then 484 else 242
  }

  function CPhy(chip: Chip, b: Bits): Phy
    requires InRange(b)
  {
    var n := b.nsts + 1;
    var nss := if chip.MT7921? && b.stbc != 0 && n > 1 then n / 2 else n;
    var mcs := if b.mode == VHT || IsHe(b.mode) || (chip.MT7925? && IsEht(b.mode)) then b.idx % 16 else b.idx;
    var mhz := CMhz(chip, b.width);
    Phy(b.mode, CRate(b.mode, mcs), mhz, b.gi, mcs, nss, n, b.stbc != 0, b.ldpc, b.dcm, COffset(b), CTones(b, mcs, mhz))
  }

  // ---------------------------------------------------------------- decoded alike

  /** All but the width and the tones is the same, and there is a stream of either kind. */
  predicate Siblings(p: Phy, q: Phy) {
    && p == q.(width := p.width, ruTones := p.ruTones)
    && p.nss > 0 && p.nsts > 0
  }

  lemma {:induction false} PhysAreSiblings(chip: Chip, b: Bits)
    requires InRange(b)
    ensures Siblings(PythonPhy(chip, b), CPhy(chip, b))
  {
    SameRate(b.mode, PythonPhy(chip, b).mcs);
    SameOffset(chip, b);
  }

  lemma {:induction false} SameRate(mode: nat, mcs: nat)
    ensures PythonRate(mode, mcs) == CRate(mode, mcs)
  {
  }

  lemma {:induction false} SameOffset(chip: Chip, b: Bits)
    ensures PythonTones(chip, b, PythonMhz(chip, b.width)).1 == COffset(b)
  {
  }

  /** The widths differ only on connac2, for codes that no table has: none to Python, 20 MHz to C. */
  lemma {:induction false} Widths(chip: Chip, code: nat)
    requires code < 8
    ensures var p, q := PythonMhz(chip, code), CMhz(chip, code);
            && (code <= 3 ==> p == q && p in {20, 40, 80, 160} && (p == 40 <==> code == 1))
            && (code > 3 && chip.MT7921? ==> p == 0 && q == 20)
            && (code in {4, 5} && chip.MT7925? ==> p == q == 320)
            && (code > 5 && chip.MT7925? ==> p == q == 0)
  {
  }

  /** Where both hosts report the same tones: HE and EHT at a coding scheme that C has a rate for and
      not at 320 MHz, except extended-range HE of connac3 at 80 or 160 MHz. Elsewhere C reports none. */
  lemma {:induction false} TonesExactly(chip: Chip, b: Bits)
    requires InRange(b)
    ensures var p, q := PythonPhy(chip, b), CPhy(chip, b);
            && (p.ruTones == q.ruTones <==>
                && (8 <= b.mode <= 11 || 13 <= b.mode <= 15)
                && (if b.mode >= 13 && chip.MT7921? then b.idx <= 13
                    else b.idx % 16 <= if b.mode >= 13 then 13 else 11)
                && (chip.MT7925? ==> b.width !in {4, 5} && !(b.mode == 9 && b.width in {2, 3})))
            && p.ruTones in {26, 52, 106, 242, 484, 996, 1992} && q.ruTones in {0, 26, 52, 106, 242, 484, 996, 1992}
  {
    Widths(chip, b.width);
  }

  // ---------------------------------------------------------------- written alike

  lemma {:induction false} McsAcross(p: Phy, q: Phy)
    requires Siblings(p, q) && (p.width == 40 <==> q.width == 40)
    ensures PythonMcs(p) == CMcs(q)
  {
  }

  lemma {:induction false} VhtAcross(p: Phy, q: Phy)
    requires Siblings(p, q)
    ensures PythonVht(p) == CVht(q) <==> PythonVhtWidth(p.width) == CVhtWidth(q.width)
  {
    var a, b := PythonVht(p), CVht(q);
    assert forall i :: 0 <= i < 12 && i != 3 ==> a[i] == b[i];
    assert a[3] == PythonVhtWidth(p.width) && b[3] == CVhtWidth(q.width);
  }

  lemma {:induction false} HeAcross(p: Phy, q: Phy)
    requires Siblings(p, q)
    ensures PythonHe(p) == CHe(q) <==> PythonHeAllocation(p) == CHeAllocation(q)
  {
    var a, b := PythonHe(p), CHe(q);
    assert forall i :: 0 <= i < 12 && i != 8 ==> a[i] == b[i];
    assert a[8] == PythonHeAllocation(p) + 16 * (p.gi % 4) && b[8] == CHeAllocation(q) + 16 * (p.gi % 4);
  }

  /** Where both have a width, or Python none and C 20 MHz, the items agree; where neither has one
      only Python reports 20 MHz. */
  lemma {:induction false} TlvsAcross(p: Phy, q: Phy)
    requires Siblings(p, q) && (p.width == q.width || (p.width == 0 && q.width == 20))
    ensures PythonTlvs(p) == CTlvs(q) <==> q.width != 0
  {
    var known := p.(width := q.width, ruTones := q.ruTones);
    assert PythonUsig(known) == PythonUsig(p) && PythonUser(known) == PythonUser(p) && PythonEht(known) == PythonEht(p);
    SameTlvsExactly(q);
  }

  /** Where the hosts write the same: VHT with a width in the tables; multi-user HE with a coding
      scheme up to 11, and not at 320 MHz, since C then leaves the tones out; extended-range HE unless
      on 106 tones beyond scheme 11; EHT with a width on connac3. */
  predicate WrittenAlike(chip: Chip, b: Bits) {
    && (b.mode == VHT ==> b.width <= 3)
    && (b.mode in {HE_MU, HE_TB} ==> b.idx % 16 <= 11 && (chip.MT7925? ==> b.width !in {4, 5}))
    && (b.mode == HE_EXT_SU ==> !(b.width == 1 && b.er106 && b.idx % 16 > 11))
    && (IsEht(b.mode) ==> chip.MT7921? || b.width <= 5)
  }

  lemma {:induction false} VhtAlike(chip: Chip, b: Bits)
    requires InRange(b) && b.mode == VHT
    ensures PythonVht(PythonPhy(chip, b)) == CVht(CPhy(chip, b)) <==> WrittenAlike(chip, b)
  {
    PhysAreSiblings(chip, b);
    Widths(chip, b.width);
    VhtAcross(PythonPhy(chip, b), CPhy(chip, b));
  }

  /** Allocation codes of tones are 4 and up, those of widths 3 and less. */
  lemma {:induction false} MultiUserAlike(chip: Chip, b: Bits)
    requires InRange(b) && b.mode in {HE_MU, HE_TB}
    ensures PythonHeAllocation(PythonPhy(chip, b)) == CHeAllocation(CPhy(chip, b)) <==> WrittenAlike(chip, b)
  {
    var p, q := PythonPhy(chip, b), CPhy(chip, b);
    Widths(chip, b.width);
    assert p.ruTones in HE_RU_CODE;
    assert q.ruTones == if q.mcs > 11 || q.width == 320 then 0 else p.ruTones;
    SameAllocation(p);
  }

  lemma {:induction false} OtherHeAlike(chip: Chip, b: Bits)
    requires InRange(b) && b.mode in {HE_SU, HE_EXT_SU}
    ensures PythonHeAllocation(PythonPhy(chip, b)) == CHeAllocation(CPhy(chip, b)) <==> WrittenAlike(chip, b)
  {
    Widths(chip, b.width);
  }

  lemma {:induction false} HeAlike(chip: Chip, b: Bits)
    requires InRange(b) && IsHe(b.mode)
    ensures PythonHe(PythonPhy(chip, b)) == CHe(CPhy(chip, b)) <==> WrittenAlike(chip, b)
  {
    PhysAreSiblings(chip, b);
    HeAcross(PythonPhy(chip, b), CPhy(chip, b));
    if b.mode in {HE_MU, HE_TB} {
      MultiUserAlike(chip, b);
    } else {
      OtherHeAlike(chip, b);
    }
  }

  lemma {:induction false} EhtAlike(chip: Chip, b: Bits)
    requires InRange(b) && IsEht(b.mode)
    ensures PythonTlvs(PythonPhy(chip, b)) == CTlvs(CPhy(chip, b)) <==> WrittenAlike(chip, b)
  {
    PhysAreSiblings(chip, b);
    Widths(chip, b.width);
    TlvsAcross(PythonPhy(chip, b), CPhy(chip, b));
  }

  // ---------------------------------------------------------------- whole records

  function PythonSignalOctet(r: Record): Byte {
    (if r.rssi.Some? then r.rssi.value else -128) % 256
  }

  function CSignalOctet(r: Record): Byte {
    (if r.rssi.Some? then r.rssi.value else -100) % 256
  }

  /** Records of one frame, as the two hosts decoded it. */
  predicate OneFrame(a: Record, c: Record, p: Phy, q: Phy) {
    && RecordOk(a) && RecordOk(c) && a.low == c.low && a.badFcs == c.badFcs && a.phy == Some(p) && c.phy == Some(q)
    && Siblings(p, q) && (p.width == 40 <==> q.width == 40)
  }

  lemma {:induction false} PlainRow(a: Record, c: Record, p: Phy, q: Phy, i: nat)
    requires OneFrame(a, c, p, q) && i in {0, 1, 4}
    ensures PythonContent(a).fields[i] == CContent(c).fields[i]
  {
    McsAcross(p, q);
  }

  lemma {:induction false} ChannelRow(a: Record, c: Record, p: Phy, q: Phy)
    requires OneFrame(a, c, p, q)
    ensures PythonContent(a).fields[2] == CContent(c).fields[2] <==> a.frequency == c.frequency
  {
    var f, g := PutLe16(a.frequency), PutLe16(c.frequency);
    var flags := PutLe16(if a.low then 0xA0 else 0x140);
    assert (f + flags)[..2] == f && (g + flags)[..2] == g;
    assert Le16(f, 0) == a.frequency && Le16(g, 0) == c.frequency;
  }

  lemma {:induction false} ModeRows(a: Record, c: Record, p: Phy, q: Phy)
    requires OneFrame(a, c, p, q)
    ensures PythonContent(a).fields[3] == CContent(c).fields[3] <==> PythonSignalOctet(a) == CSignalOctet(c)
    ensures PythonContent(a).fields[5] == CContent(c).fields[5] <==> (p.mode == VHT ==> PythonVht(p) == CVht(q))
    ensures PythonContent(a).fields[6] == CContent(c).fields[6] <==> (IsHe(p.mode) ==> PythonHe(p) == CHe(q))
    ensures PythonContent(a).tlvs == CContent(c).tlvs <==> (IsEht(p.mode) ==> PythonTlvs(p) == CTlvs(q))
  {
  }

  lemma {:induction false} ContentAcross(a: Record, c: Record, p: Phy, q: Phy)
    requires OneFrame(a, c, p, q)
    ensures PythonContent(a) == CContent(c) <==>
            && a.frequency == c.frequency && PythonSignalOctet(a) == CSignalOctet(c)
            && (p.mode == VHT ==> PythonVht(p) == CVht(q)) && (IsHe(p.mode) ==> PythonHe(p) == CHe(q))
            && (IsEht(p.mode) ==> PythonTlvs(p) == CTlvs(q))
  {
    forall i | i in {0, 1, 4}
      ensures PythonContent(a).fields[i] == CContent(c).fields[i]
    {
      PlainRow(a, c, p, q, i);
    }
    ChannelRow(a, c, p, q);
    ModeRows(a, c, p, q);
    SevenRows(PythonContent(a), CContent(c));
  }

  lemma {:induction false} SevenRows(a: Content, c: Content)
    requires |a.fields| == |c.fields| == ROWS
    ensures a == c <==>
            && a.fields[0] == c.fields[0] && a.fields[1] == c.fields[1] && a.fields[2] == c.fields[2]
            && a.fields[3] == c.fields[3] && a.fields[4] == c.fields[4] && a.fields[5] == c.fields[5]
            && a.fields[6] == c.fields[6] && a.tlvs == c.tlvs
  {
    ByRow(a, c);
  }

  /** Two records of one frame whose metadata come from the same rate words have the same header
      octets if and only if frequency and signal are the same and the fields are treated alike. */
  lemma {:induction false} DecodedHeadersExactly(chip: Chip, v: nat, w: nat, a: Record, c: Record)
    requires RecordOk(a) && RecordOk(c) && a.low == c.low && a.badFcs == c.badFcs
    requires a.phy == Some(PythonPhy(chip, PythonBits(chip, v, w))) && c.phy == Some(CPhy(chip, CBits(chip, v, w)))
    ensures HeaderOf(Python, a) == HeaderOf(C, c) <==>
            && a.frequency == c.frequency && PythonSignalOctet(a) == CSignalOctet(c)
            && WrittenAlike(chip, PythonBits(chip, v, w))
  {
    SameBits(chip, v, w);
    var b := PythonBits(chip, v, w);
    ContentsOfBits(chip, b, a, c);
    HeadersTell(a, c);
  }

  lemma {:induction false} ContentsOfBits(chip: Chip, b: Bits, a: Record, c: Record)
    requires RecordOk(a) && RecordOk(c) && a.low == c.low && a.badFcs == c.badFcs && InRange(b)
    requires a.phy == Some(PythonPhy(chip, b)) && c.phy == Some(CPhy(chip, b))
    ensures PythonContent(a) == CContent(c) <==>
            a.frequency == c.frequency && PythonSignalOctet(a) == CSignalOctet(c) && WrittenAlike(chip, b)
  {
    PhysAreSiblings(chip, b);
    Widths(chip, b.width);
    ContentAcross(a, c, PythonPhy(chip, b), CPhy(chip, b));
    if b.mode == VHT {
      VhtAlike(chip, b);
    } else if IsHe(b.mode) {
      HeAlike(chip, b);
    } else if IsEht(b.mode) {
      EhtAlike(chip, b);
    }
  }

  lemma {:induction false} SignalTells(a: Record, c: Record)
    requires RecordOk(a) && RecordOk(c) && PythonContent(a) == CContent(c)
    ensures PythonSignalOctet(a) == CSignalOctet(c)
  {
    assert PythonContent(a).fields[3] == CContent(c).fields[3];
  }

  lemma {:induction false} HeadersTell(a: Record, c: Record)
    requires RecordOk(a) && RecordOk(c)
    ensures HeaderOf(Python, a) == HeaderOf(C, c) <==> PythonContent(a) == CContent(c)
  {
    ContentFits(Python, a);
    ContentFits(C, c);
    HeaderRoundTrip(PythonContent(a), []);
    HeaderRoundTrip(CContent(c), []);
  }
}
