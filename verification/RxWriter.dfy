/** Receive records put together field by field, by the descriptor layouts of connac2
    (mt76_connac2_mac.h) and connac3 (mt76_connac3_mac.h), and what the decoders make of them. */
module RxWriter {
  import opened Wire
  import opened RxDecode

  // ---------------------------------------------------------------- the record

  /** Bits that no decoder here looks at, word by word from the low end. */
  datatype Spare = Spare(zero: nat, oneLow: nat, oneHigh: nat, oneTop: nat, twoLow: nat, twoMid: nat, twoHigh: nat,
                         threeLow: nat, threeMid: nat, threeHigh: nat)

  /** `length` is the DMA length, `fixed` the fixed words after the first four, and `rest` what the
      transfer holds after the padding. A group is given by its words. */
  datatype Record = Record(length: nat, flag: nat, kind: nat, badFcs: bool, badAmsdu: bool, tooLong: bool,
                           band: Band, channel: nat, spare: Spare, fixed: seq<nat>,
                           group4: Option<seq<nat>>, group1: Option<seq<nat>>, group2: Option<seq<nat>>,
                           group3: Option<seq<nat>>, group5: Option<seq<nat>>, padding: Bytes, rest: Bytes)

  ghost predicate ValidSpare(chip: Chip, s: Spare) {
    && s.zero < 0x80 && s.twoMid < 0x80 && s.twoHigh < 0x80 && s.threeLow < 0x100
    && match chip
       case MT7921 => s.oneLow < 0x800 && s.oneHigh < 0x800 && s.oneTop < 0x10 && s.twoLow < 0x4000 &&
                      s.threeMid < 0x100 && s.threeHigh < 0x100
       case MT7925 => s.oneLow < 0x1_0000 && s.oneHigh < 0x800 && s.oneTop == 0 && s.twoLow < 0x2000 &&
                      s.threeMid < 0x100 && s.threeHigh < 0x80
  }

  ghost predicate AllWords(words: seq<nat>) {
    forall i :: 0 <= i < |words| ==> words[i] < U32_LIMIT
  }

  ghost predicate Group(g: Option<seq<nat>>, n: nat) {
    g.Some? ==> |g.value| == n && AllWords(g.value)
  }

  ghost predicate ValidGroups(chip: Chip, r: Record) {
    && Group(r.group4, 4) && Group(r.group1, 4)
    && match chip
       case MT7921 => Group(r.group2, 2) && Group(r.group3, 2) && Group(r.group5, 18)
       case MT7925 => Group(r.group2, 4) && Group(r.group3, 4) && Group(r.group5, 24)
  }

  ghost predicate ValidChannel(band: Band, channel: nat) {
    match band
    case GHz2 => channel <= 14
    case GHz5 => 14 < channel <= 180
    case GHz6 => channel % 4 == 1 && channel <= 297
  }

  ghost predicate ValidRecord(chip: Chip, r: Record) {
    && r.length < 0x1_0000 && r.flag < 16 && r.kind < 32 && ValidChannel(r.band, r.channel)
    && ValidSpare(chip, r.spare) && ValidGroups(chip, r)
    && AllWords(r.fixed) && |r.fixed| == (if chip.MT7921? then 2 else 4)
    && |r.padding| % 2 == 0 && |r.padding| <= (if chip.MT7921? then 6 else 14)
  }

  // ---------------------------------------------------------------- the words

  function One(b: bool): (v: nat)
    ensures v < 2 && (v == 1 <==> b)
  {
    if b then 1 else 0
  }

  function IndexOf(band: Band, channel: nat): (i: nat)
    requires ValidChannel(band, channel)
    ensures i < 256
  {
    if band.GHz6? then 181 + channel / 4 else channel
  }

  function TypeWord(length: nat, flag: nat, spare: nat, kind: nat): nat {
    length + 0x1_0000 * (flag + 16 * (spare + 128 * kind))
  }

  function FirstWord(r: Record): nat {
    TypeWord(r.length, r.flag, r.spare.zero, r.kind)
  }

  /** Presence bits of groups 1 to 5, in that order. */
  function PresenceBits(r: Record, above: nat): nat {
    One(r.group1.Some?) + 2 * (One(r.group2.Some?) + 2 * (One(r.group3.Some?) + 2 * (One(r.group4.Some?) +
      2 * (One(r.group5.Some?) + 2 * above))))
  }

  function GroupWord(chip: Chip, r: Record): nat {
    match chip
    case MT7921 =>
      r.spare.oneLow + 0x800 * PresenceBits(r, r.spare.oneHigh + 0x800 * (One(r.badFcs) + 2 * r.spare.oneTop))
    case MT7925 => r.spare.oneLow + 0x1_0000 * PresenceBits(r, r.spare.oneHigh)
  }

  function DamageWord(chip: Chip, r: Record): nat {
    var pairs, above := |r.padding| / 2,
      r.spare.twoMid + 0x80 * (One(r.badAmsdu) + 2 * (One(r.tooLong) + 2 * r.spare.twoHigh));
    match chip
    case MT7921 => r.spare.twoLow + 0x4000 * (pairs + 4 * above)
    case MT7925 => r.spare.twoLow + 0x2000 * (pairs + 8 * above)
  }

  function ChannelWord(chip: Chip, r: Record): nat
    requires ValidChannel(r.band, r.channel)
  {
    var top := match chip
               case MT7921 => r.spare.threeMid + 0x100 * r.spare.threeHigh
               case MT7925 => r.spare.threeMid + 0x100 * (One(r.badFcs) + 2 * r.spare.threeHigh);
    r.spare.threeLow + 0x100 * (IndexOf(r.band, r.channel) + 0x100 * top)
  }

  // ---------------------------------------------------------------- what the decoders read from each word

  lemma {:induction false} FieldAt(low: nat, scale: nat, value: nat, width: nat, high: nat, word: nat)
    requires low < scale && value < width && word == low + scale * (value + width * high)
    ensures Field(word, scale, width) == value
  {
    Digit(low, value + width * high, scale);
    Digit(value, high, width);
  }

  lemma {:induction false} BitAt(low: nat, scale: nat, bit: bool, high: nat, word: nat)
    requires low < scale && word == low + scale * (One(bit) + 2 * high)
    ensures Bit(word, scale) == bit
  {
    FieldAt(low, scale, One(bit), 2, high, word);
  }

  lemma {:induction false} TypeRead(length: nat, flag: nat, spare: nat, kind: nat)
    requires length < 0x1_0000 && flag < 16 && spare < 0x80 && kind < 32
    ensures var w := TypeWord(length, flag, spare, kind);
            w < U32_LIMIT && DmaLength(w) == length && PacketFlag(w) == flag && PacketType(w) == kind
  {
    var w := TypeWord(length, flag, spare, kind);
    FieldAt(length, 0x1_0000, flag, 16, spare + 128 * kind, w);
    FieldAt(length + 0x1_0000 * flag + 0x10_0000 * spare, 0x800_0000, kind, 32, 0, w);
    Digit(length, flag + 16 * (spare + 128 * kind), 0x1_0000);
  }

  /** Which packets are frames: type 2, type 17, events of type 7 with flag 1, and on MT7925 types 7,
      15, 23 and 31 with flag 1. */
  predicate HoldsFrame(chip: Chip, flag: nat, kind: nat) {
    || kind == 2 || kind == 17 || (kind == 7 && flag == 1)
    || (chip.MT7925? && kind in {15, 23, 31} && flag == 1)
  }

  lemma {:induction false} FrameRead(chip: Chip, length: nat, flag: nat, spare: nat, kind: nat)
    requires length < 0x1_0000 && flag < 16 && spare < 0x80 && kind < 32
    ensures IsFrame(chip, TypeWord(length, flag, spare, kind)) <==> HoldsFrame(chip, flag, kind)
  {
    TypeRead(length, flag, spare, kind);
  }

  /** In walking order: groups 4, 1, 2, 3 and 5. */
  function Flags(r: Record): (p: seq<bool>)
    ensures |p| == 5
  {
    [r.group4.Some?, r.group1.Some?, r.group2.Some?, r.group3.Some?, r.group5.Some?]
  }

  /** What lies below and above each presence bit. */
  lemma {:induction false} PresenceRead2(r: Record, above: nat, word: nat)
    requires r.spare.oneLow < 0x800 && word == r.spare.oneLow + 0x800 * PresenceBits(r, above)
    ensures Present(MT7921, word) == Flags(r)
  {
    var b1, b2, b3, b4, b5 := One(r.group1.Some?), One(r.group2.Some?), One(r.group3.Some?), One(r.group4.Some?),
      One(r.group5.Some?);
    var l1 := r.spare.oneLow;
    var t5 := b5 + 2 * above;
    var t4 := b4 + 2 * t5;
    var t3 := b3 + 2 * t4;
    var t2 := b2 + 2 * t3;
    BitAt(l1, 0x800, r.group1.Some?, t2, word);
    BitAt(l1 + 0x800 * b1, 0x1000, r.group2.Some?, t3, word);
    BitAt(l1 + 0x800 * b1 + 0x1000 * b2, 0x2000, r.group3.Some?, t4, word);
    BitAt(l1 + 0x800 * b1 + 0x1000 * b2 + 0x2000 * b3, 0x4000, r.group4.Some?, t5, word);
    BitAt(l1 + 0x800 * b1 + 0x1000 * b2 + 0x2000 * b3 + 0x4000 * b4, 0x8000, r.group5.Some?, above, word);
  }

  lemma {:induction false} PresenceRead3(r: Record, above: nat, word: nat)
    requires r.spare.oneLow < 0x1_0000 && word == r.spare.oneLow + 0x1_0000 * PresenceBits(r, above)
    ensures Present(MT7925, word) == Flags(r)
  {
    var b1, b2, b3, b4, b5 := One(r.group1.Some?), One(r.group2.Some?), One(r.group3.Some?), One(r.group4.Some?),
      One(r.group5.Some?);
    var l1 := r.spare.oneLow;
    var t5 := b5 + 2 * above;
    var t4 := b4 + 2 * t5;
    var t3 := b3 + 2 * t4;
    var t2 := b2 + 2 * t3;
    BitAt(l1, 0x1_0000, r.group1.Some?, t2, word);
    BitAt(l1 + 0x1_0000 * b1, 0x2_0000, r.group2.Some?, t3, word);
    BitAt(l1 + 0x1_0000 * b1 + 0x2_0000 * b2, 0x4_0000, r.group3.Some?, t4, word);
    BitAt(l1 + 0x1_0000 * b1 + 0x2_0000 * b2 + 0x4_0000 * b3, 0x8_0000, r.group4.Some?, t5, word);
    BitAt(l1 + 0x1_0000 * b1 + 0x2_0000 * b2 + 0x4_0000 * b3 + 0x8_0000 * b4, 0x10_0000, r.group5.Some?, above, word);
  }

  lemma {:induction false} PresenceBound(r: Record, above: nat)
    ensures 32 * above <= PresenceBits(r, above) < 32 * above + 32
    ensures PresenceBits(r, above) == PresenceBits(r, 0) + 32 * above
  {
  }

  lemma {:induction false} GroupWordRead(chip: Chip, r: Record)
    requires ValidSpare(chip, r.spare)
    ensures GroupWord(chip, r) < U32_LIMIT && Present(chip, GroupWord(chip, r)) == Flags(r)
    ensures chip.MT7921? ==> Bit(GroupWord(chip, r), 0x800_0000) == r.badFcs
  {
    var word := GroupWord(chip, r);
    if chip.MT7921? {
      var above := r.spare.oneHigh + 0x800 * (One(r.badFcs) + 2 * r.spare.oneTop);
      PresenceBound(r, above);
      PresenceRead2(r, above, word);
      BitAt(r.spare.oneLow + 0x800 * PresenceBits(r, 0) + 0x1_0000 * r.spare.oneHigh, 0x800_0000, r.badFcs,
            r.spare.oneTop, word);
    } else {
      PresenceBound(r, r.spare.oneHigh);
      PresenceRead3(r, r.spare.oneHigh, word);
    }
  }

  lemma {:induction false} DamageWordRead(chip: Chip, r: Record)
    requires ValidSpare(chip, r.spare) && |r.padding| % 2 == 0 && |r.padding| <= (if chip.MT7921? then 6 else 14)
    ensures var w := DamageWord(chip, r);
            && w < U32_LIMIT && 2 * Pad(chip, w) == |r.padding| && (Damaged(w) <==> r.badAmsdu || r.tooLong)
  {
    var w, pairs, top := DamageWord(chip, r), |r.padding| / 2, One(r.tooLong) + 2 * r.spare.twoHigh;
    var above := r.spare.twoMid + 0x80 * (One(r.badAmsdu) + 2 * top);
    if chip.MT7921? {
      FieldAt(r.spare.twoLow, 0x4000, pairs, 4, above, w);
      BitAt(r.spare.twoLow + 0x4000 * pairs + 0x1_0000 * r.spare.twoMid, 0x80_0000, r.badAmsdu, top, w);
      BitAt(r.spare.twoLow + 0x4000 * pairs + 0x1_0000 * r.spare.twoMid + 0x80_0000 * One(r.badAmsdu), 0x100_0000,
            r.tooLong, r.spare.twoHigh, w);
    } else {
      FieldAt(r.spare.twoLow, 0x2000, pairs, 8, above, w);
      BitAt(r.spare.twoLow + 0x2000 * pairs + 0x1_0000 * r.spare.twoMid, 0x80_0000, r.badAmsdu, top, w);
      BitAt(r.spare.twoLow + 0x2000 * pairs + 0x1_0000 * r.spare.twoMid + 0x80_0000 * One(r.badAmsdu), 0x100_0000,
            r.tooLong, r.spare.twoHigh, w);
    }
  }

  lemma {:induction false} IndexRead(band: Band, channel: nat, index: nat)
    requires ValidChannel(band, channel) && index == IndexOf(band, channel)
    ensures if band.GHz6? then index > 180 && (index - 181) * 4 + 1 == channel
            else index == channel && (index > 14 <==> band.GHz5?) && index <= 180
  {
  }

  /** C keeps the channel in one octet. */
  lemma {:induction false} ChannelWordRead(chip: Chip, r: Record)
    requires ValidSpare(chip, r.spare) && ValidChannel(r.band, r.channel)
    ensures var w := ChannelWord(chip, r);
            && w < U32_LIMIT && PythonChannel(w) == (r.band, r.channel) && CChannel(w) == (r.band, r.channel % 256)
            && (chip.MT7925? ==> Bit(w, 0x100_0000) == r.badFcs)
  {
    var w, index := ChannelWord(chip, r), IndexOf(r.band, r.channel);
    var top := match chip
               case MT7921 => r.spare.threeMid + 0x100 * r.spare.threeHigh
               case MT7925 => r.spare.threeMid + 0x100 * (One(r.badFcs) + 2 * r.spare.threeHigh);
    FieldAt(r.spare.threeLow, 0x100, index, 0x100, top, w);
    IndexRead(r.band, r.channel, index);
    if chip.MT7925? {
      BitAt(r.spare.threeLow + 0x100 * index + 0x1_0000 * r.spare.threeMid, 0x100_0000, r.badFcs, r.spare.threeHigh, w);
    }
  }

  // ---------------------------------------------------------------- the octets of a record

  function PutWords(words: seq<nat>): (b: Bytes)
    requires AllWords(words)
    ensures |b| == 4 * |words|
  {
    if words == [] then [] else PutLe32(words[0]) + PutWords(words[1..])
  }

  lemma {:induction false} WordInFirst(a: Bytes, b: Bytes)
    requires |a| == 4
    ensures WordAt(a + b, 0) == Le32(a, 0)
  {
    assert (a + b)[0..4] == a[0..4];
    LeAgree(a + b, 0, a, 0, 4);
  }

  lemma {:induction false} WordInSecond(a: Bytes, b: Bytes, at: nat)
    requires at + 4 <= |b|
    ensures WordAt(a + b, |a| + at) == WordAt(b, at)
  {
    assert (a + b)[|a| + at..|a| + at + 4] == b[at..at + 4];
    LeAgree(a + b, |a| + at, b, at, 4);
  }

  lemma {:induction false} WordRead(words: seq<nat>, rest: Bytes, k: nat)
    requires AllWords(words) && k < |words|
    ensures WordAt(PutWords(words) + rest, 4 * k) == words[k]
  {
    var first, more := PutLe32(words[0]), PutWords(words[1..]);
    Assoc(first, more, rest);
    if k == 0 {
      WordInFirst(first, more + rest);
    } else {
      WordRead(words[1..], rest, k - 1);
      WordInSecond(first, more + rest, 4 * (k - 1));
    }
  }

  /** The groups in walking order. Group 5 lies inside group 3: without that it is announced, but not
      there. */
  function GroupAt(r: Record, i: nat): Option<seq<nat>>
    requires i < 5
  {
    if i == 0 then r.group4 else if i == 1 then r.group1 else if i == 2 then r.group2
    else if i == 3 then r.group3
    else if r.group3.None? then None else r.group5
  }

  function Laid(r: Record): (p: seq<bool>)
    ensures |p| == 5
  {
    [r.group4.Some?, r.group1.Some?, r.group2.Some?, r.group3.Some?, r.group5.Some? && r.group3.Some?]
  }

  function GroupWords(r: Record, i: nat): seq<nat>
    requires i < 5
  {
    if GroupAt(r, i).Some? then GroupAt(r, i).value else []
  }

  /** The fixed words and the first `n` groups. */
  ghost function Head(chip: Chip, r: Record, n: nat): (words: seq<nat>)
    requires ValidRecord(chip, r) && n <= 5
    ensures AllWords(words)
    decreases n
  {
    if n == 0 then FixedWords(chip, r) else Head(chip, r, n - 1) + GroupWords(r, n - 1)
  }

  ghost function FixedWords(chip: Chip, r: Record): (words: seq<nat>)
    requires ValidRecord(chip, r)
    ensures AllWords(words)
  {
    TypeRead(r.length, r.flag, r.spare.zero, r.kind);
    GroupWordRead(chip, r);
    DamageWordRead(chip, r);
    ChannelWordRead(chip, r);
    [FirstWord(r), GroupWord(chip, r), DamageWord(chip, r), ChannelWord(chip, r)] + r.fixed
  }

  ghost function Octets(chip: Chip, r: Record): Bytes
    requires ValidRecord(chip, r)
  {
    PutWords(Head(chip, r, 5)) + (r.padding + r.rest)
  }

  lemma {:induction false} HeadGrows(chip: Chip, r: Record, m: nat, n: nat)
    requires ValidRecord(chip, r) && m <= n <= 5
    ensures Head(chip, r, m) <= Head(chip, r, n)
    decreases n
  {
    if m < n {
      HeadGrows(chip, r, m, n - 1);
    }
  }

  lemma {:induction false} GroupSize(chip: Chip, r: Record, i: nat)
    requires ValidRecord(chip, r) && i < 5
    ensures Laid(r)[i] == GroupAt(r, i).Some?
    ensures 4 * |GroupWords(r, i)| == if Laid(r)[i] then Sizes(chip)[i] else 0
  {
  }

  lemma {:induction false} StartRead(chip: Chip, r: Record, k: nat)
    requires ValidRecord(chip, r) && k <= 5
    ensures Start(chip, Laid(r), k) == 4 * |Head(chip, r, k)|
  {
    if k > 0 {
      StartRead(chip, r, k - 1);
      GroupSize(chip, r, k - 1);
    }
  }

  /** Whatever part of the descriptor it is in, a word is read back. */
  lemma {:induction false} HeadRead(chip: Chip, r: Record, n: nat, k: nat)
    requires ValidRecord(chip, r) && n <= 5 && k < |Head(chip, r, n)|
    ensures WordAt(Octets(chip, r), 4 * k) == Head(chip, r, n)[k]
  {
    HeadGrows(chip, r, n, 5);
    WordRead(Head(chip, r, 5), r.padding + r.rest, k);
  }

  lemma {:induction false} OctetsLength(chip: Chip, r: Record)
    requires ValidRecord(chip, r)
    ensures |Octets(chip, r)| == Start(chip, Laid(r), 5) + |r.padding| + |r.rest|
    ensures |Octets(chip, r)| >= Fixed(chip) >= 24
  {
    StartRead(chip, r, 5);
    HeadGrows(chip, r, 0, 5);
  }

  lemma {:induction false} FixedRead(chip: Chip, r: Record)
    requires ValidRecord(chip, r)
    ensures var b := Octets(chip, r);
            && |b| >= Fixed(chip) && Le32(b, 0) == FirstWord(r) && Le32(b, 4) == GroupWord(chip, r)
            && Le32(b, 8) == DamageWord(chip, r) && Le32(b, 12) == ChannelWord(chip, r)
  {
    OctetsLength(chip, r);
    HeadRead(chip, r, 0, 0);
    HeadRead(chip, r, 0, 1);
    HeadRead(chip, r, 0, 2);
    HeadRead(chip, r, 0, 3);
  }

  /** Where a group lies in the descriptor. */
  lemma {:induction false} GroupInHead(chip: Chip, r: Record, i: nat, n: nat)
    requires ValidRecord(chip, r) && i < n <= 5
    ensures var k, words := |Head(chip, r, i)|, GroupWords(r, i);
            k + |words| <= |Head(chip, r, n)| && Head(chip, r, n)[k..k + |words|] == words
  {
    HeadGrows(chip, r, i + 1, n);
    SliceInFirst(Head(chip, r, i), GroupWords(r, i), Head(chip, r, n));
  }

  lemma {:induction false} SliceInFirst(before: seq<nat>, words: seq<nat>, all: seq<nat>)
    requires before + words <= all
    ensures all[|before|..|before| + |words|] == words
  {
    var n := |before| + |words|;
    assert all[..n] == before + words;
  }

  lemma {:induction false} SpanRead(words: seq<nat>, tail: Bytes, k: nat, n: nat)
    requires AllWords(words) && k + n <= |words|
    ensures Words(PutWords(words) + tail, 4 * k, n) == words[k..k + n]
  {
    forall j | 0 <= j < n
      ensures WordAt(PutWords(words) + tail, 4 * k + 4 * j) == words[k + j]
    {
      WordRead(words, tail, k + j);
    }
  }

  /** Each group is read back word by word. */
  lemma {:induction false} GroupRead(chip: Chip, r: Record, i: nat, at: nat, n: nat)
    requires ValidRecord(chip, r) && i < 5 && at == Start(chip, Laid(r), i) && n == |GroupWords(r, i)|
    ensures Words(Octets(chip, r), at, n) == GroupWords(r, i)
  {
    StartRead(chip, r, i);
    GroupInHead(chip, r, i, 5);
    SpanRead(Head(chip, r, 5), r.padding + r.rest, |Head(chip, r, i)|, n);
  }

  // ---------------------------------------------------------------- what the decoders make of a record

  function FirstOf(g: Option<seq<nat>>): Option<nat> {
    if g.Some? && g.value != [] then Some(g.value[0]) else None
  }

  predicate GroupsAre(g: Groups, r: Record, end: nat) {
    && g.timestamp == FirstOf(r.group2) && g.g3 == GroupWords(r, 3) && g.g5 == GroupWords(r, 4) && g.end == end
    && g.fcRxd == match FirstOf(r.group4) { case None => None case Some(w) => Some(w % 0x1_0000) }
  }

  /** The first word of a group that is there. */
  lemma {:induction false} FirstRead(chip: Chip, r: Record, i: nat, at: nat)
    requires ValidRecord(chip, r) && i < 5 && at == Start(chip, Laid(r), i)
    ensures FirstOf(GroupAt(r, i)) == if Laid(r)[i] then Some(WordAt(Octets(chip, r), at)) else None
  {
    GroupSize(chip, r, i);
    GroupRead(chip, r, i, at, |GroupWords(r, i)|);
    if Laid(r)[i] {
      assert Words(Octets(chip, r), at, |GroupWords(r, i)|)[0] == GroupWords(r, i)[0];
    }
  }

  lemma {:induction false} AllRead(chip: Chip, r: Record, i: nat, at: nat)
    requires ValidRecord(chip, r) && i < 5 && at == Start(chip, Laid(r), i)
    ensures GroupWords(r, i) == if Laid(r)[i] then Words(Octets(chip, r), at, Sizes(chip)[i] / 4) else []
  {
    GroupSize(chip, r, i);
    GroupRead(chip, r, i, at, |GroupWords(r, i)|);
  }

  lemma {:induction false} GroupsRead(chip: Chip, r: Record)
    requires ValidRecord(chip, r)
    ensures GroupsAre(GroupsUpTo(chip, Octets(chip, r), Laid(r), 5), r, Start(chip, Laid(r), 5))
  {
    FirstRead(chip, r, 0, Start(chip, Laid(r), 0));
    FirstRead(chip, r, 2, Start(chip, Laid(r), 2));
    AllRead(chip, r, 3, Start(chip, Laid(r), 3));
    AllRead(chip, r, 4, Start(chip, Laid(r), 4));
  }

  /** The frame starts after the fixed words, the groups that are there and the padding. */
  function FrameAt(chip: Chip, r: Record): nat {
    (if chip.MT7921? then 24 else 32) +
    4 * (|GroupWords(r, 0)| + |GroupWords(r, 1)| + |GroupWords(r, 2)| + |GroupWords(r, 3)| + |GroupWords(r, 4)|) +
    |r.padding|
  }

  /** What the DMA length leaves of the rest of the transfer; zero leaves all of it. */
  function Kept(r: Record, before: nat): Option<Bytes> {
    var n := if r.length == 0 || before + |r.rest| <= r.length then |r.rest|
             else if before <= r.length then r.length - before else 0;
    if n == 0 then None else Some(r.rest[..n])
  }

  /** One signal reading per octet: the sixth word of group 5 after its first on MT7921, else the last
      word of group 3. */
  function SignalWordOf(chip: Chip, r: Record): Option<nat> {
    if r.group3.None? || r.group3.value == [] then None
    else if chip.MT7921? && r.group5.Some? && |r.group5.value| > 6 then Some(r.group5.value[6])
    else Some(r.group3.value[|r.group3.value| - 1])
  }

  function Dbm(octet: Byte): int {
    octet as int / 2 - 110
  }

  /** The strongest of four readings; an octet of 220 or more is none. */
  ghost predicate Strength(signal: Option<int>, octets: Bytes)
    requires |octets| == 4
  {
    match signal
    case None => forall i :: 0 <= i < 4 ==> octets[i] >= 220
    case Some(v) =>
      && (exists i :: 0 <= i < 4 && octets[i] < 220 && v == Dbm(octets[i]))
      && (forall i :: 0 <= i < 4 && octets[i] < 220 ==> Dbm(octets[i]) <= v)
  }

  lemma {:induction false} ChainOctets(word: nat, i: nat)
    requires word < U32_LIMIT && i < 4
    ensures Chains(word)[i] == Dbm(PutLe32(word)[i])
  {
    DivDiv(word, 0x100, 0x100);
    DivDiv(word, 0x1_0000, 0x100);
    var w1 := word / 0x100;
    assert PutLe(word, 4) == [word % 0x100] + PutLe(w1, 3);
    assert PutLe(w1, 3) == [w1 % 0x100] + PutLe(w1 / 0x100, 2);
  }

  lemma {:induction false} StrengthRead(word: nat)
    requires word < U32_LIMIT
    ensures Strength(Strongest(Chains(word)), PutLe32(word))
  {
    var octets, chains := PutLe32(word), Chains(word);
    StrongestMeaning(chains);
    forall i | 0 <= i < 4
      ensures chains[i] == Dbm(octets[i]) && chains[i] in chains
    {
      ChainOctets(word, i);
    }
  }

  lemma {:induction false} SignalRead(chip: Chip, r: Record, g: Groups, end: nat)
    requires ValidRecord(chip, r) && GroupsAre(g, r, end)
    ensures SignalWord(chip, g) == SignalWordOf(chip, r)
    ensures SignalWord(chip, g).Some? ==> SignalWord(chip, g).value < U32_LIMIT
  {
  }

  lemma {:induction false} KeptRead(a: Bytes, r: Record, buf: Bytes)
    requires buf == a + r.rest && |buf| >= 4 && DmaLength(Le32(buf, 0)) == r.length
    ensures CFrameAt(buf, |a|) == Kept(r, |a|) == PythonFrameAt(buf, |a|)
  {
    SameFrameAt(buf, |a|);
    var end := if r.length > 0 && r.length < |buf| then r.length else |buf|;
    if |a| < end {
      assert buf[|a|..end] == r.rest[..end - |a|];
    }
  }

  /** What both hosts read in a record that is a frame: FCS verdict, time, signal and the frame. */
  ghost predicate Heard(chip: Chip, r: Record, badFcs: bool, time: Option<nat>, signal: Option<int>,
                        frame: Option<Bytes>)
    requires ValidRecord(chip, r)
  {
    && badFcs == r.badFcs && time == FirstOf(r.group2) && frame == Kept(r, FrameAt(chip, r))
    && match SignalWordOf(chip, r)
       case None => signal == None
       case Some(word) => word < U32_LIMIT && Strength(signal, PutLe32(word))
  }

  lemma {:induction false} FrameSize(chip: Chip, r: Record)
    requires ValidRecord(chip, r)
    ensures 4 * |Head(chip, r, 5)| + |r.padding| == FrameAt(chip, r)
  {
    HeadLength(chip, r, 5);
  }

  function Total(r: Record, n: nat): nat
    requires n <= 5
  {
    if n == 0 then 0 else Total(r, n - 1) + |GroupWords(r, n - 1)|
  }

  lemma {:induction false} HeadLength(chip: Chip, r: Record, n: nat)
    requires ValidRecord(chip, r) && n <= 5
    ensures |Head(chip, r, n)| == (if chip.MT7921? then 6 else 8) + Total(r, n)
  {
    if n > 0 {
      HeadLength(chip, r, n - 1);
    }
  }

  lemma {:induction false} FrameStarts(chip: Chip, r: Record)
    requires ValidRecord(chip, r)
    ensures Start(chip, Laid(r), 5) + |r.padding| == FrameAt(chip, r)
    ensures var b := Octets(chip, r); |b| >= FrameAt(chip, r) && b[FrameAt(chip, r)..] == r.rest
  {
    StartRead(chip, r, 5);
    FrameSize(chip, r);
  }

  /** The four fixed words, as every decoder reads them. */
  lemma {:induction false} WordsRead(chip: Chip, r: Record)
    requires ValidRecord(chip, r)
    ensures var b := Octets(chip, r);
            && |b| >= Fixed(chip)
            && DmaLength(Le32(b, 0)) == r.length && (IsFrame(chip, Le32(b, 0)) <==> HoldsFrame(chip, r.flag, r.kind))
            && Present(chip, Le32(b, 4)) == Flags(r)
            && (Damaged(Le32(b, 8)) <==> r.badAmsdu || r.tooLong) && 2 * Pad(chip, Le32(b, 8)) == |r.padding|
            && PythonChannel(Le32(b, 12)) == (r.band, r.channel)
            && CChannel(Le32(b, 12)) == (r.band, r.channel % 256)
            && FcsError(chip, Le32(b, 4), Le32(b, 12)) == r.badFcs
  {
    FixedRead(chip, r);
    TypeRead(r.length, r.flag, r.spare.zero, r.kind);
    FrameRead(chip, r.length, r.flag, r.spare.zero, r.kind);
    GroupWordRead(chip, r);
    DamageWordRead(chip, r);
    ChannelWordRead(chip, r);
  }

  lemma {:induction false} FrameRest(chip: Chip, r: Record, b: Bytes)
    requires ValidRecord(chip, r) && b == Octets(chip, r) && |b| >= 4 && DmaLength(Le32(b, 0)) == r.length
    ensures CFrameAt(b, FrameAt(chip, r)) == Kept(r, FrameAt(chip, r)) == PythonFrameAt(b, FrameAt(chip, r))
  {
    FrameStarts(chip, r);
    Assoc(PutWords(Head(chip, r, 5)), r.padding, r.rest);
    StartRead(chip, r, 5);
    KeptRead(PutWords(Head(chip, r, 5)) + r.padding, r, b);
  }

  /** Time and signal, from the groups as they lie. */
  lemma {:induction false} GroupsTell(chip: Chip, r: Record, b: Bytes, p: seq<bool>)
    requires ValidRecord(chip, r) && b == Octets(chip, r) && p == Laid(r)
    ensures PythonTimestamp(chip, b, p) == FirstOf(r.group2)
    ensures PythonSignalWord(chip, b, p) == SignalWordOf(chip, r)
    ensures p[0] ==> Fixed(chip) + 16 <= |b|
    ensures var word := SignalWordOf(chip, r);
            word.Some? ==> word.value < U32_LIMIT && Strength(Strongest(Chains(word.value)), PutLe32(word.value))
  {
    OctetsLength(chip, r);
    GroupsRead(chip, r);
    SameTime(chip, b, p);
    SameSignal(chip, b, p);
    SignalRead(chip, r, GroupsUpTo(chip, b, p, 5), Start(chip, p, 5));
    if SignalWordOf(chip, r).Some? {
      StrengthRead(SignalWordOf(chip, r).value);
    }
  }

  lemma {:induction false} ViewOf(chip: Chip, b: Bytes, p: seq<bool>, gap: nat)
    requires |b| >= Fixed(chip) && IsFrame(chip, Le32(b, 0)) && !Damaged(Le32(b, 8))
    requires p == Stepped(Present(chip, Le32(b, 4))) && (p[0] ==> Fixed(chip) + 16 <= |b|)
    requires gap == Start(chip, p, 5) + 2 * Pad(chip, Le32(b, 8))
    ensures var d := PythonView(chip, b);
            && d.Decoded? && d.value.fcsError == FcsError(chip, Le32(b, 4), Le32(b, 12))
            && (d.value.band, d.value.channel) == PythonChannel(Le32(b, 12))
            && d.value.timestamp == PythonTimestamp(chip, b, p)
            && d.value.rssi == PythonSignal(PythonSignalWord(chip, b, p))
            && d.value.headerGap == gap && d.value.frame == PythonFrameAt(b, gap)
  {
  }

  /** Python's decoders, for every record that is a frame: they read what it was made of. */
  lemma {:induction false} PythonReads(chip: Chip, r: Record)
    requires ValidRecord(chip, r) && HoldsFrame(chip, r.flag, r.kind) && !r.badAmsdu && !r.tooLong
    ensures var d := PythonView(chip, Octets(chip, r));
            && d.Decoded? && d.value.band == r.band && d.value.channel == r.channel
            && d.value.headerGap == FrameAt(chip, r)
            && Heard(chip, r, d.value.fcsError, d.value.timestamp, d.value.rssi, d.value.frame)
  {
    var b, p, gap := Octets(chip, r), Laid(r), FrameAt(chip, r);
    WordsRead(chip, r);
    GroupsTell(chip, r, b, p);
    FrameRest(chip, r, b);
    FrameStarts(chip, r);
    assert Stepped(Flags(r)) == p;
    ViewOf(chip, b, p, gap);
  }

  /** Other packets and damaged frames are recognised. */
  lemma {:induction false} PythonRefuses(chip: Chip, r: Record)
    requires ValidRecord(chip, r)
    ensures var d := PythonView(chip, Octets(chip, r));
            && (!HoldsFrame(chip, r.flag, r.kind) ==> d == NotAFrame)
            && (HoldsFrame(chip, r.flag, r.kind) && (r.badAmsdu || r.tooLong) ==> d == DamagedFrame)
  {
    WordsRead(chip, r);
  }

  /** C's decoders: the groups must be in the DMA length, and group 5 must come with group 3. The
      channel is kept in one octet, and no signal is -100. */
  lemma {:induction false} CReads(chip: Chip, r: Record)
    requires ValidRecord(chip, r)
    ensures var b := Octets(chip, r);
            && |b| >= Fixed(chip)
            && (CAccepts(chip, b) <==>
                && HoldsFrame(chip, r.flag, r.kind) && !r.badAmsdu && !r.tooLong && (r.group5.Some? ==> r.group3.Some?)
                && FrameAt(chip, r) <= r.length + |r.padding|)
            && (CAccepts(chip, b) ==>
                  var v := CView(chip, b);
                  && v.band == r.band && v.channel == r.channel % 256
                  && exists signal :: v.rssi == (if signal == None then -100 else signal.value) &&
                       Heard(chip, r, v.fcsError, v.timestamp, signal, v.frame))
  {
    var b := Octets(chip, r);
    WordsRead(chip, r);
    FrameStarts(chip, r);
    if CAccepts(chip, b) {
      CRefinesPython(chip, b);
      PythonReads(chip, r);
      assert Heard(chip, r, CView(chip, b).fcsError, CView(chip, b).timestamp, PythonView(chip, b).value.rssi,
                   CView(chip, b).frame);
    }
  }
}