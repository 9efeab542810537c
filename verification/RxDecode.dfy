/** The four receive-descriptor decoders: Python and C, each for connac2 (MT7921) and connac3
    (MT7925) (rxd.py, rxd_connac3.py, c/mt7921_rxd.c, c/mt7921_rxd_connac3.c). Python reads what it
    can; C refuses any walk that leaves the record. */
module RxDecode {
  import opened Wire

  datatype Chip = MT7921 | MT7925

  // ---------------------------------------------------------------- descriptor words

  const NORMAL := 2
  const RX_EVENT := 7
  const NORMAL_MCU := 17
  const NORMAL_MCU_FLAG := 1

  function PacketType(rxd0: nat): nat {
    Field(rxd0, 0x800_0000, 32)
  }

  function PacketFlag(rxd0: nat): nat {
    Field(rxd0, 0x1_0000, 16)
  }

  /** The connac3 software packet type 0x3801 under mask 0x380f of the high half: flag 1 and the low
      three bits of the packet type set. */
  predicate SoftwareFrame(rxd0: nat) {
    PacketFlag(rxd0) == 1 && PacketType(rxd0) % 8 == 7
  }

  /** The packet type after the decoders' renaming: a connac3 software frame counts as a normal
      frame, and an event with the frame flag as a frame from the MCU. */
  function DecodedType(chip: Chip, rxd0: nat): nat {
    var ptype := if chip.MT7925? && SoftwareFrame(rxd0) then NORMAL else PacketType(rxd0);
    if ptype == RX_EVENT && PacketFlag(rxd0) == NORMAL_MCU_FLAG then NORMAL_MCU else ptype
  }

  /** What the chip's decoders take for an 802.11 frame. A raw packet type of 17 is one too. */
  predicate IsFrame(chip: Chip, rxd0: nat) {
    DecodedType(chip, rxd0) == NORMAL || DecodedType(chip, rxd0) == NORMAL_MCU
  }

  function DmaLength(rxd0: nat): nat {
    rxd0 % 0x1_0000
  }

  predicate Damaged(rxd2: nat) {
    Bit(rxd2, 0x80_0000) || Bit(rxd2, 0x100_0000)
  }

  predicate FcsError(chip: Chip, rxd1: nat, rxd3: nat) {
    if chip.MT7921? then Bit(rxd1, 0x800_0000) else Bit(rxd3, 0x100_0000)
  }

  function Pad(chip: Chip, rxd2: nat): nat {
    if chip.MT7921? then Field(rxd2, 0x4000, 4) else Field(rxd2, 0x2000, 8)
  }

  datatype Band = GHz2 | GHz5 | GHz6

  /** status_freq, on the channel-frequency field. */
  function PythonChannel(rxd3: nat): (Band, nat) {
    var chfreq := Field(rxd3, 0x100, 0x100);
    if chfreq > 180 then (GHz6, (chfreq - 181) * 4 + 1)
    else if chfreq > 14 then (GHz5, chfreq)
    else (GHz2, chfreq)
  }

  /** The same branches in C, where `channel` is a uint8_t. */
  function CChannel(rxd3: nat): (Band, Byte) {
    var chfreq := (rxd3 / 256) % 256;
    if chfreq > 180 then (GHz6, ((chfreq - 181) * 4 + 1) % 256)
    else if chfreq > 14 then (GHz5, chfreq)
    else (GHz2, chfreq)
  }

  // ---------------------------------------------------------------- the group walk

  function Fixed(chip: Chip): nat {
    if chip.MT7921? then 24 else 32
  }

  /** Sizes in walking order: groups 4, 1, 2, 3 and 5. */
  function Sizes(chip: Chip): (s: seq<nat>)
    ensures |s| == 5
  {
    if chip.MT7921? then [16, 16, 8, 8, 72] else [16, 16, 16, 16, 96]
  }

  /** Presence bits of RXD1, in walking order. */
  function Present(chip: Chip, rxd1: nat): (p: seq<bool>)
    ensures |p| == 5
  {
    if chip.MT7921? then
      [Bit(rxd1, 0x4000), Bit(rxd1, 0x800), Bit(rxd1, 0x1000), Bit(rxd1, 0x2000), Bit(rxd1, 0x8000)]
    else
      [Bit(rxd1, 0x8_0000), Bit(rxd1, 0x1_0000), Bit(rxd1, 0x2_0000), Bit(rxd1, 0x4_0000), Bit(rxd1, 0x10_0000)]
  }

  /** Where the k-th group in walking order starts: after the fixed words and the groups present
      before it. */
  function Start(chip: Chip, present: seq<bool>, k: nat): nat
    requires |present| == 5 && k <= 5
  {
    if k == 0 then Fixed(chip)
    else Start(chip, present, k - 1) + (if present[k - 1] then Sizes(chip)[k - 1] else 0)
  }

  lemma {:induction false} StartGrows(chip: Chip, present: seq<bool>, j: nat, k: nat)
    requires |present| == 5 && j <= k <= 5
    ensures Start(chip, present, j) <= Start(chip, present, k)
    ensures j < k && present[j] ==> Start(chip, present, j) + Sizes(chip)[j] <= Start(chip, present, k)
    decreases k
  {
    if j < k {
      StartGrows(chip, present, j, k - 1);
    }
  }

  /** The record: what the DMA length and the transfer both cover. */
  function RecordEnd(buf: Bytes): nat
    requires |buf| >= 4
  {
    var dma := DmaLength(Le32(buf, 0));
    if dma < |buf| then dma else |buf|
  }

  /** Group 5 only comes inside group 3, and every group lies in the record. */
  predicate WellGrouped(chip: Chip, buf: Bytes)
    requires |buf| >= Fixed(chip)
  {
    var present := Present(chip, Le32(buf, 4));
    && Fixed(chip) <= DmaLength(Le32(buf, 0))
    && (present[4] ==> present[3])
    && Start(chip, present, 5) <= RecordEnd(buf)
  }

  /** Little-endian word at an offset; zero beyond the buffer, where no decoder reads. */
  function WordAt(buf: Bytes, at: nat): nat {
    if at + 4 <= |buf| then Le32(buf, at) else 0
  }

  function Words(buf: Bytes, at: nat, n: nat): (w: seq<nat>)
    ensures |w| == n && forall i :: 0 <= i < n ==> w[i] == WordAt(buf, at + 4 * i)
  {
    seq(n, i requires 0 <= i < n => WordAt(buf, at + 4 * i))
  }

  /** What the C walk leaves in its output. */
  datatype Groups = Groups(fcRxd: Option<nat>, timestamp: Option<nat>, g3: seq<nat>, g5: seq<nat>, end: nat)

  /** The first `n` groups in walking order. */
  function GroupsUpTo(chip: Chip, buf: Bytes, present: seq<bool>, n: nat): Groups
    requires |present| == 5 && n <= 5
  {
    Groups(if n > 0 && present[0] then Some(WordAt(buf, Start(chip, present, 0)) % 0x1_0000) else None,
           if n > 2 && present[2] then Some(WordAt(buf, Start(chip, present, 2))) else None,
           if n > 3 && present[3] then Words(buf, Start(chip, present, 3), Sizes(chip)[3] / 4) else [],
           if n > 4 && present[4] then Words(buf, Start(chip, present, 4), Sizes(chip)[4] / 4) else [],
           Start(chip, present, n))
  }

  function GroupsOf(chip: Chip, buf: Bytes): Groups
    requires |buf| >= Fixed(chip)
  {
    GroupsUpTo(chip, buf, Present(chip, Le32(buf, 4)), 5)
  }

  // ---------------------------------------------------------------- the C walk

  const WALK_BITS := [8, 1, 2, 4, 16]

  function Mask(chip: Chip, rxd1: nat): nat {
    Field(rxd1, if chip.MT7921? then 0x800 else 0x1_0000, 32)
  }

  lemma {:induction false} Parity(x: nat, k: nat)
    ensures (x + 2 * k) % 2 == x % 2
  {
  }

  lemma {:induction false} Quotient(m: nat, bit: nat, q: nat, r: nat, c: nat)
    requires m == r + bit * q && r < bit
    ensures (m + bit * c) / bit == q + c && m / bit == q
  {
    Distribute(bit, q, c);
    Digit(r, q, bit);
    Digit(r, q + c, bit);
  }

  lemma {:induction false} LowBit(q: nat, bit: nat, above: nat)
    requires bit > 0 && bit * (2 * above) == 32
    ensures Bit(q % 32, bit) == Bit(q, bit)
  {
    var m, k := q % 32, above * (q / 32);
    Regroup(bit, above, q / 32);
    Quotient(m, bit, m / bit, m % bit, 2 * k);
    Parity(m / bit, k);
  }

  lemma {:induction false} Regroup(bit: nat, above: nat, high: nat)
    requires bit * (2 * above) == 32
    ensures bit * (2 * (above * high)) == 32 * high
  {
    assert bit * (2 * (above * high)) == bit * (2 * above) * high;
  }

  lemma {:induction false} Distribute(a: nat, b: nat, c: nat)
    ensures a * (b + c) == a * b + a * c
  {
  }

  lemma {:induction false} DivDiv(w: nat, a: nat, b: nat)
    requires a > 0 && b > 0
    ensures a * b > 0 && w / a / b == w / (a * b)
  {
    var q, r := w / a, w % a;
    var s, t := q / b, q % b;
    assert w == (r + a * t) + (a * b) * s;
    assert a * t + a <= a * b by {
      MulGap(a, t, b);
    }
    Digit(r + a * t, s, a * b);
  }

  /** Shifting the mask down and testing one of its bits is testing the presence bit. */
  lemma {:induction false} MaskIsPresence(chip: Chip, rxd1: nat, i: nat)
    requires i < 5
    ensures Bit(Mask(chip, rxd1), WALK_BITS[i]) == Present(chip, rxd1)[i]
  {
    var shift, bit := if chip.MT7921? then 0x800 else 0x1_0000, WALK_BITS[i];
    DivDiv(rxd1, shift, bit);
    LowBit(rxd1 / shift, bit, 16 / bit);
  }

  method ReadWords(buf: Bytes, off: nat, n: nat) returns (words: seq<nat>)
    requires off + 4 * n <= |buf|
    ensures words == Words(buf, off, n)
  {
    words := [];
    for j := 0 to n
      invariant |words| == j && forall i :: 0 <= i < j ==> words[i] == WordAt(buf, off + 4 * i)
    {
      words := words + [Le32(buf, off + 4 * j)];
    }
  }

  /** What the walk keeps of the i-th group. */
  method ReadGroup(chip: Chip, buf: Bytes, ghost present: seq<bool>, i: nat, off: nat, groups: Groups)
    returns (out: Groups)
    requires |present| == 5 && i < 5 && present[i] && off == Start(chip, present, i)
    requires off + Sizes(chip)[i] <= |buf| && groups.(end := off) == GroupsUpTo(chip, buf, present, i)
    ensures out.(end := off + Sizes(chip)[i]) == GroupsUpTo(chip, buf, present, i + 1)
  {
    out := groups;
    if WALK_BITS[i] == 8 {
      out := out.(fcRxd := Some(Le32(buf, off) % 0x1_0000));
    } else if WALK_BITS[i] == 2 {
      out := out.(timestamp := Some(Le32(buf, off)));
    } else if WALK_BITS[i] == 4 {
      var words := ReadWords(buf, off, Sizes(chip)[i] / 4);
      out := out.(g3 := words);
    } else if WALK_BITS[i] == 16 {
      var words := ReadWords(buf, off, Sizes(chip)[i] / 4);
      out := out.(g5 := words);
    }
  }

  /** mt7921_rxd_groups: it succeeds exactly on a well-grouped record, reading nothing past it. */
  method WalkGroups(chip: Chip, buf: Bytes) returns (out: Option<Groups>)
    ensures out.Some? <==> |buf| >= Fixed(chip) && WellGrouped(chip, buf)
    ensures out.Some? ==> out.value == GroupsOf(chip, buf)
  {
    var off := Fixed(chip);
    if |buf| < off {
      return None;
    }
    var end := DmaLength(Le32(buf, 0));
    if end < off {
      return None;
    }
    var len := if end < |buf| then end else |buf|;
    var rxd1 := Le32(buf, 4);
    var mask := Mask(chip, rxd1);
    ghost var present := Present(chip, rxd1);
    MaskIsPresence(chip, rxd1, 3);
    MaskIsPresence(chip, rxd1, 4);
    if Bit(mask, 16) && !Bit(mask, 4) {
      return None;
    }
    var sizes := Sizes(chip);
    var groups := Groups(None, None, [], [], off);
    for i := 0 to 5
      invariant off == Start(chip, present, i) && off <= len
      invariant groups.(end := off) == GroupsUpTo(chip, buf, present, i)
    {
      MaskIsPresence(chip, rxd1, i);
      StartGrows(chip, present, i + 1, 5);
      if Bit(mask, WALK_BITS[i]) {
        if off > len || sizes[i] > len - off {
          return None;
        }
        groups := ReadGroup(chip, buf, present, i, off, groups);
        off := off + sizes[i];
      }
    }
    out := Some(groups.(end := off));
  }

  /** The walk never looks past the record: octets after the DMA length cannot change it. */
  lemma {:induction false} WalkIgnoresTail(chip: Chip, buf: Bytes, n: nat)
    requires |buf| >= Fixed(chip) && DmaLength(Le32(buf, 0)) == n <= |buf| && Fixed(chip) <= n
    ensures WellGrouped(chip, buf) <==> WellGrouped(chip, buf[..n])
    ensures WellGrouped(chip, buf) ==> GroupsOf(chip, buf) == GroupsOf(chip, buf[..n])
  {
    SameWord(buf, n, 0);
    SameWord(buf, n, 4);
    if WellGrouped(chip, buf) {
      forall k | 0 <= k < 5 && Present(chip, Le32(buf, 4))[k]
        ensures var at := Start(chip, Present(chip, Le32(buf, 4)), k);
                && WordAt(buf, at) == WordAt(buf[..n], at)
                && Words(buf, at, Sizes(chip)[k] / 4) == Words(buf[..n], at, Sizes(chip)[k] / 4)
      {
        SameGroupWords(chip, buf, n, k);
      }
    }
  }

  lemma {:induction false} SameGroupWords(chip: Chip, buf: Bytes, n: nat, k: nat)
    requires |buf| >= Fixed(chip) && n <= |buf| && k < 5
    requires var p := Present(chip, Le32(buf, 4)); Start(chip, p, 5) <= n && p[k]
    ensures var at := Start(chip, Present(chip, Le32(buf, 4)), k);
            && WordAt(buf, at) == WordAt(buf[..n], at)
            && Words(buf, at, Sizes(chip)[k] / 4) == Words(buf[..n], at, Sizes(chip)[k] / 4)
  {
    var p := Present(chip, Le32(buf, 4));
    var at := Start(chip, p, k);
    StartGrows(chip, p, k, 5);
    forall j | 0 <= j < Sizes(chip)[k] / 4
      ensures WordAt(buf, at + 4 * j) == WordAt(buf[..n], at + 4 * j)
    {
      SameWord(buf, n, at + 4 * j);
    }
    SameWord(buf, n, at);
  }

  lemma {:induction false} SameWord(buf: Bytes, n: nat, at: nat)
    requires at + 4 <= n <= |buf|
    ensures Le32(buf, at) == Le32(buf[..n], at)
  {
    assert buf[at..at + 4] == buf[..n][at..at + 4];
    LeAgree(buf, at, buf[..n], at, 4);
  }

  // ---------------------------------------------------------------- signal strength

  /** Both forms of to_rssi halve downwards. */
  function Chains(word: nat): seq<int> {
    [ (Field(word, 1, 256) - 220) / 2, (Field(word, 0x100, 256) - 220) / 2,
      (Field(word, 0x1_0000, 256) - 220) / 2, (Field(word, 0x100_0000, 256) - 220) / 2]
  }

  /** The strongest chain with a plausible (negative) reading. */
  function Strongest(chains: seq<int>): Option<int> {
    if chains == [] then None
    else
      var before, last := Strongest(chains[..|chains| - 1]), chains[|chains| - 1];
      if last < 0 && (before.None? || last > before.value) then Some(last) else before
  }

  lemma {:induction false} StrongestMeaning(chains: seq<int>)
    ensures Strongest(chains).None? ==> forall c :: c in chains ==> c >= 0
    ensures Strongest(chains).Some? ==>
              var v := Strongest(chains).value;
              v in chains && v < 0 && forall c :: c in chains && c < 0 ==> c <= v
  {
    if chains != [] {
      StrongestMeaning(chains[..|chains| - 1]);
      assert forall c :: c in chains <==> c in chains[..|chains| - 1] || c == chains[|chains| - 1];
      assert chains[|chains| - 1] in chains;
    }
  }

  const NO_SIGNAL := -100

  const CHAIN_SHIFTS := [1, 0x100, 0x1_0000, 0x100_0000]

  function CSignal(word: Option<nat>): int {
    if word.None? || Strongest(Chains(word.value)).None? then NO_SIGNAL else Strongest(Chains(word.value)).value
  }

  /** The chain loop of both C decoders. */
  method StrongestChain(word: nat) returns (rssi: int)
    ensures rssi == CSignal(Some(word))
  {
    var best, found := -128, false;
    var chains := Chains(word);
    for c := 0 to 4
      invariant found == Strongest(chains[..c]).Some?
      invariant found ==> best == Strongest(chains[..c]).value
    {
      assert chains[..c + 1][..c] == chains[..c];
      var rcpi: int := Field(word, CHAIN_SHIFTS[c], 256);
      var val := rcpi / 2 - 110;
      assert val == chains[c];
      if val < 0 && (!found || val > best) {
        best, found := val, true;
      }
    }
    assert chains[..4] == chains;
    rssi := if found then best else NO_SIGNAL;
  }

  // ---------------------------------------------------------------- the C decoders

  datatype CFrame = CFrame(fcsError: bool, band: Band, channel: nat, timestamp: Option<nat>, rssi: int,
                           frame: Option<Bytes>)

  /** The record ends at its DMA length, if that is given and lies within the transfer. */
  function CFrameAt(buf: Bytes, gap: nat): Option<Bytes>
    requires |buf| >= 4
  {
    var dma := DmaLength(Le32(buf, 0));
    var end := if dma > 0 && dma < |buf| then dma else |buf|;
    if gap < end then Some(buf[gap..gap + (end - gap)]) else None
  }

  function SignalWord(chip: Chip, g: Groups): Option<nat> {
    if chip.MT7921? then
      if |g.g5| > 6 then Some(g.g5[6]) else if |g.g3| > 1 then Some(g.g3[1]) else None
    else if |g.g3| > 3 then Some(g.g3[3]) else None
  }

  predicate CAccepts(chip: Chip, buf: Bytes) {
    |buf| >= Fixed(chip) && IsFrame(chip, Le32(buf, 0)) && !Damaged(Le32(buf, 8)) && WellGrouped(chip, buf)
  }

  function CView(chip: Chip, buf: Bytes): CFrame
    requires |buf| >= Fixed(chip)
  {
    var (band, channel) := CChannel(Le32(buf, 12));
    var g := GroupsOf(chip, buf);
    CFrame(FcsError(chip, Le32(buf, 4), Le32(buf, 12)), band, channel, g.timestamp,
           CSignal(SignalWord(chip, g)), CFrameAt(buf, g.end + 2 * Pad(chip, Le32(buf, 8))))
  }

  method DecodeC(chip: Chip, buf: Bytes) returns (out: Option<CFrame>)
    ensures out.Some? <==> CAccepts(chip, buf)
    ensures out.Some? ==> out.value == CView(chip, buf)
  {
    if |buf| < Fixed(chip) {
      return None;
    }
    var rxd0, rxd1, rxd2, rxd3 := Le32(buf, 0), Le32(buf, 4), Le32(buf, 8), Le32(buf, 12);
    if !IsFrame(chip, rxd0) || Damaged(rxd2) {
      return None;
    }
    var (band, channel) := CChannel(rxd3);
    var groups := WalkGroups(chip, buf);
    if groups.None? {
      return None;
    }
    var g, rssi := groups.value, NO_SIGNAL;
    var word := SignalWord(chip, g);
    if word.Some? {
      rssi := StrongestChain(word.value);
    }
    out := Some(CFrame(FcsError(chip, rxd1, rxd3), band, channel, g.timestamp, rssi,
                       CFrameAt(buf, g.end + 2 * Pad(chip, rxd2))));
  }

  // ---------------------------------------------------------------- the Python decoders

  datatype PythonFrame = PythonFrame(fcsError: bool, band: Band, channel: nat, timestamp: Option<nat>,
                                     rssi: Option<int>, headerGap: nat, frame: Option<Bytes>)

  /** decode returns nothing, or a dict that stops at one of these points. */
  datatype PythonResult = TooShort | NotAFrame | DamagedFrame | GroupFourCut | Decoded(value: PythonFrame)

  /** Python steps over group 5 only inside group 3. */
  function Stepped(present: seq<bool>): (p: seq<bool>)
    requires |present| == 5
    ensures |p| == 5
  {
    present[..4] + [present[3] && present[4]]
  }

  function PythonTimestamp(chip: Chip, buf: Bytes, p: seq<bool>): Option<nat>
    requires |p| == 5
  {
    var at := Start(chip, p, 2);
    if p[2] && at + (if chip.MT7921? then 8 else 4) <= |buf| then Some(Le32(buf, at)) else None
  }

  function PythonSignalWord(chip: Chip, buf: Bytes, p: seq<bool>): Option<nat>
    requires |p| == 5
  {
    var g3, g5 := Start(chip, p, 3), Start(chip, p, 4);
    if chip.MT7921? && p[4] && g5 + 28 <= |buf| then Some(Le32(buf, g5 + 24))
    else if p[3] && g3 + Sizes(chip)[3] <= |buf| then Some(Le32(buf, g3 + (if chip.MT7921? then 4 else 12)))
    else None
  }

  /** `min(dma_len, len(buf)) if dma_len else len(buf)`, and the slice up to it. */
  function PythonFrameAt(buf: Bytes, gap: nat): Option<Bytes>
    requires |buf| >= 4
  {
    var dma := DmaLength(Le32(buf, 0));
    var end := if dma == 0 then |buf| else if |buf| < dma then |buf| else dma;
    if gap < end then Some(Slice(buf, gap, end)) else None
  }

  function PythonSignal(word: Option<nat>): Option<int> {
    if word.None? then None else Strongest(Chains(word.value))
  }

  function PythonView(chip: Chip, buf: Bytes): PythonResult {
    if |buf| < Fixed(chip) then TooShort
    else if !IsFrame(chip, Le32(buf, 0)) then NotAFrame
    else if Damaged(Le32(buf, 8)) then DamagedFrame
    else
      var p := Stepped(Present(chip, Le32(buf, 4)));
      if p[0] && Fixed(chip) + 16 > |buf| then GroupFourCut
      else
        var (band, channel) := PythonChannel(Le32(buf, 12));
        var gap := Start(chip, p, 5) + 2 * Pad(chip, Le32(buf, 8));
        Decoded(PythonFrame(FcsError(chip, Le32(buf, 4), Le32(buf, 12)), band, channel,
                            PythonTimestamp(chip, buf, p), PythonSignal(PythonSignalWord(chip, buf, p)),
                            gap, PythonFrameAt(buf, gap)))
  }

  /** Both Python decoders, moving `off` over the groups as they do. */
  method DecodePython(chip: Chip, buf: Bytes) returns (out: PythonResult)
    ensures out == PythonView(chip, buf)
  {
    if |buf| < Fixed(chip) {
      return TooShort;
    }
    var rxd0, rxd1, rxd2, rxd3 := Le32(buf, 0), Le32(buf, 4), Le32(buf, 8), Le32(buf, 12);
    if !IsFrame(chip, rxd0) {
      return NotAFrame;
    }
    if Damaged(rxd2) {
      return DamagedFrame;
    }
    var (band, channel) := PythonChannel(rxd3);
    var present := Present(chip, rxd1);
    ghost var p := Stepped(present);
    var off := Fixed(chip);
    if present[0] && off + 16 > |buf| {
      return GroupFourCut;
    }
    var timestamp, word;
    off, timestamp, word := StepGroups(chip, buf, present);
    var gap := off + 2 * Pad(chip, rxd2);
    out := Decoded(PythonFrame(FcsError(chip, rxd1, rxd3), band, channel, timestamp, PythonSignal(word), gap,
                               PythonFrameAt(buf, gap)));
  }

  method StepGroups(chip: Chip, buf: Bytes, present: seq<bool>)
    returns (off: nat, timestamp: Option<nat>, word: Option<nat>)
    requires |present| == 5
    ensures off == Start(chip, Stepped(present), 5)
    ensures timestamp == PythonTimestamp(chip, buf, Stepped(present))
    ensures word == PythonSignalWord(chip, buf, Stepped(present))
  {
    var group3, group5: Option<nat> := None, None;
    ghost var p := Stepped(present);
    off, timestamp := Fixed(chip), None;
    if present[0] {
      off := off + 16;
    }
    assert off == Start(chip, p, 1);
    if present[1] {
      off := off + 16;
    }
    assert off == Start(chip, p, 2);
    if present[2] {
      if off + (if chip.MT7921? then 8 else 4) <= |buf| {
        timestamp := Some(Le32(buf, off));
      }
      off := off + Sizes(chip)[2];
    }
    assert off == Start(chip, p, 3);
    if present[3] {
      if off + Sizes(chip)[3] <= |buf| {
        group3 := Some(Le32(buf, off + (if chip.MT7921? then 4 else 12)));
      }
      off := off + Sizes(chip)[3];
      if present[4] {
        if chip.MT7921? {
          off := off + 24;
          if off + 4 <= |buf| {
            group5 := Some(Le32(buf, off));
          }
          off := off + 48;
        } else {
          off := off + 96;
        }
      }
    }
    word := if group5.Some? then group5 else group3;
  }

  // ---------------------------------------------------------------- refinement

  lemma {:induction false} SameTime(chip: Chip, buf: Bytes, p: seq<bool>)
    requires |p| == 5 && Start(chip, p, 5) <= |buf|
    ensures PythonTimestamp(chip, buf, p) == GroupsUpTo(chip, buf, p, 5).timestamp
    ensures p[0] ==> Fixed(chip) + 16 <= |buf|
  {
    StartGrows(chip, p, 0, 5);
    StartGrows(chip, p, 2, 5);
  }

  /** A group that is there lies in the record whole. */
  lemma {:induction false} GroupRoom(chip: Chip, buf: Bytes, p: seq<bool>, i: nat)
    requires |p| == 5 && i < 5 && Start(chip, p, 5) <= |buf|
    ensures p[i] ==> Start(chip, p, i) + Sizes(chip)[i] <= |buf|
  {
    StartGrows(chip, p, i, 5);
  }

  lemma {:induction false} WordOf(buf: Bytes, at: nat, n: nat, i: nat)
    requires i < n && at + 4 * i + 4 <= |buf|
    ensures Words(buf, at, n)[i] == Le32(buf, at + 4 * i)
  {
  }

  lemma {:induction false} SameSignal(chip: Chip, buf: Bytes, p: seq<bool>)
    requires |p| == 5 && Start(chip, p, 5) <= |buf|
    ensures PythonSignalWord(chip, buf, p) == SignalWord(chip, GroupsUpTo(chip, buf, p, 5))
  {
    var g3, g5 := Start(chip, p, 3), Start(chip, p, 4);
    GroupRoom(chip, buf, p, 3);
    GroupRoom(chip, buf, p, 4);
    if chip.MT7921? && p[4] {
      WordOf(buf, g5, 18, 6);
    } else if p[3] {
      WordOf(buf, g3, if chip.MT7921? then 2 else 4, if chip.MT7921? then 1 else 3);
    }
  }

  /** On a well-grouped record both walks see the same groups. */
  lemma {:induction false} SameGroups(chip: Chip, buf: Bytes)
    requires |buf| >= Fixed(chip) && WellGrouped(chip, buf)
    ensures var p := Present(chip, Le32(buf, 4)); var g := GroupsOf(chip, buf);
            && Stepped(p) == p && g.end == Start(chip, p, 5)
            && PythonTimestamp(chip, buf, p) == g.timestamp
            && PythonSignalWord(chip, buf, p) == SignalWord(chip, g)
            && (p[0] ==> Fixed(chip) + 16 <= |buf|)
  {
    SameTime(chip, buf, Present(chip, Le32(buf, 4)));
    SameSignal(chip, buf, Present(chip, Le32(buf, 4)));
  }

  /** Python decodes whatever C accepts, and sees the same frame, time, FCS verdict and signal. The
      channel is the same exactly when it fits the C field, which is up to channel index 244. */
  lemma {:induction false} CRefinesPython(chip: Chip, buf: Bytes)
    requires CAccepts(chip, buf)
    ensures PythonView(chip, buf).Decoded?
    ensures var c, py := CView(chip, buf), PythonView(chip, buf).value;
            && c.frame == py.frame && c.timestamp == py.timestamp && c.fcsError == py.fcsError && c.band == py.band
            && c.rssi == (if py.rssi.Some? then py.rssi.value else NO_SIGNAL)
            && (c.channel == py.channel <==> Field(Le32(buf, 12), 256, 256) <= 244)
  {
    SameGroups(chip, buf);
    NarrowChannel(Le32(buf, 12));
    SameFrameAt(buf, GroupsOf(chip, buf).end + 2 * Pad(chip, Le32(buf, 8)));
  }

  lemma {:induction false} NarrowChannel(rxd3: nat)
    ensures CChannel(rxd3).0 == PythonChannel(rxd3).0
    ensures CChannel(rxd3).1 == PythonChannel(rxd3).1 <==> Field(rxd3, 256, 256) <= 244
  {
  }

  lemma {:induction false} SameFrameAt(buf: Bytes, gap: nat)
    requires |buf| >= 4
    ensures PythonFrameAt(buf, gap) == CFrameAt(buf, gap)
  {
  }

  /** What C refuses beyond Python: groups that leave the record, and group 5 without group 3. */
  lemma {:induction false} CRefusesExactly(chip: Chip, buf: Bytes)
    ensures CAccepts(chip, buf) <==> PythonView(chip, buf).Decoded? && WellGrouped(chip, buf)
  {
    if |buf| >= Fixed(chip) && WellGrouped(chip, buf) {
      SameGroups(chip, buf);
    }
  }
}
