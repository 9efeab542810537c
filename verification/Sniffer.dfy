/** From a received transfer to the packet in the capture file, on both hosts
    (examples/sniff_to_pcap.py, c/mt7921_rxd.c): the descriptor decoders, the rate words and the
    header writers put together. */
module Sniffer {
  import opened Wire
  import opened RxDecode
  import Radiotap
  import RadiotapWriters
  import RateVectors

  type Record = RadiotapWriters.Record

  /** freq_for, in MHz. */
  function PythonFrequency(band: Band, channel: nat): nat {
    match band
    case GHz2 => if channel == 14 then 2484 else 2407 + channel * 5
    case GHz5 => 5000 + channel * 5
    case GHz6 => 5950 + channel * 5
  }

  function CFrequency(band: Band, channel: Byte): nat {
    if band.GHz2? then (if channel == 14 then 2484 else (2407 + channel * 5) % 0x1_0000)
    else if band.GHz5? then (5000 + channel * 5) % 0x1_0000
    else (5950 + channel * 5) % 0x1_0000
  }

  /** The two words of group 3 that are decoded, if it is there whole. */
  function PythonVector(chip: Chip, buf: Bytes): Option<(nat, nat)>
    requires |buf| >= Fixed(chip)
  {
    var p := Stepped(Present(chip, Le32(buf, 4)));
    var at := Start(chip, p, 3);
    if p[3] && at + Sizes(chip)[3] <= |buf| then
      Some((Le32(buf, at), Le32(buf, at + (if chip.MT7921? then 4 else 8))))
    else None
  }

  function CVector(chip: Chip, g3: seq<nat>): Option<(nat, nat)> {
    if chip.MT7921? then (if |g3| == 2 then Some((g3[0], g3[1])) else None)
    else if |g3| == 4 then Some((g3[0], g3[2]))
    else None
  }

  /** What Python's writer is given: the frequency of the decoded channel, or, if that is zero, of the
      channel asked for. */
  function PythonReceived(chip: Chip, buf: Bytes, asked: nat): Record
    requires PythonView(chip, buf).Decoded?
  {
    var d := PythonView(chip, buf).value;
    RadiotapWriters.Record(
      if d.channel != 0 then PythonFrequency(d.band, d.channel) else asked, d.band.GHz2?, d.rssi, d.fcsError,
      match PythonVector(chip, buf)
      case None => None
      case Some(words) => Some(RateVectors.PythonPhy(chip, RateVectors.PythonBits(chip, words.0, words.1))))
  }

  /** What C's writer is given. */
  function CReceived(chip: Chip, buf: Bytes): Record
    requires CAccepts(chip, buf)
  {
    var d := CView(chip, buf);
    RadiotapWriters.Record(
      CFrequency(d.band, d.channel), d.band.GHz2?, Some(d.rssi), d.fcsError,
      match CVector(chip, GroupsOf(chip, buf).g3)
      case None => None
      case Some(words) => Some(RateVectors.CPhy(chip, RateVectors.CBits(chip, words.0, words.1))))
  }

  /** The channel-frequency field of a descriptor. */
  function ChannelIndex(buf: Bytes): nat
    requires |buf| >= 16
  {
    Field(Le32(buf, 12), 256, 256)
  }

  lemma {:induction false} FrequencyAt(index: nat, asked: nat, band: Band, channel: nat, narrow: Byte)
    requires index < 256 && narrow == channel % 256
    requires if index > 180 then band == GHz6 && channel == (index - 181) * 4 + 1
             else channel == index && band == if index > 14 then GHz5 else GHz2
    ensures var python := if channel != 0 then PythonFrequency(band, channel) else asked;
            && (python == CFrequency(band, narrow) <==> index <= 244 && (index == 0 ==> asked == 2407))
            && CFrequency(band, narrow) < 0x1_0000 && (asked < 0x1_0000 ==> python < 0x1_0000)
  {
  }

  lemma {:induction false} SameFrequency(rxd3: nat, asked: nat)
    ensures var (band, channel) := PythonChannel(rxd3);
            var index := Field(rxd3, 256, 256);
            var python := if channel != 0 then PythonFrequency(band, channel) else asked;
            var c := CFrequency(CChannel(rxd3).0, CChannel(rxd3).1);
            && (python == c <==> index <= 244 && (index == 0 ==> asked == 2407))
            && c < 0x1_0000 && (asked < 0x1_0000 ==> python < 0x1_0000)
  {
    var (band, channel) := PythonChannel(rxd3);
    FrequencyAt(Field(rxd3, 256, 256), asked, band, channel, CChannel(rxd3).1);
  }

  lemma {:induction false} VectorOf(chip: Chip, buf: Bytes, p: seq<bool>)
    requires |p| == 5 && Start(chip, p, 5) <= |buf| && p[3]
    ensures var at := Start(chip, p, 3);
            && at + Sizes(chip)[3] <= |buf|
            && CVector(chip, GroupsUpTo(chip, buf, p, 5).g3) ==
               Some((Le32(buf, at), Le32(buf, at + (if chip.MT7921? then 4 else 8))))
  {
    var at, n := Start(chip, p, 3), if chip.MT7921? then 2 else 4;
    GroupRoom(chip, buf, p, 3);
    WordOf(buf, at, n, 0);
    WordOf(buf, at, n, if chip.MT7921? then 1 else 2);
  }

  /** On a record that C accepts both hosts find the same rate words. */
  lemma {:induction false} SameVector(chip: Chip, buf: Bytes)
    requires CAccepts(chip, buf)
    ensures PythonVector(chip, buf) == CVector(chip, GroupsOf(chip, buf).g3)
    ensures PythonVector(chip, buf).Some? <==> Present(chip, Le32(buf, 4))[3]
  {
    var p := Present(chip, Le32(buf, 4));
    SameGroups(chip, buf);
    if p[3] {
      VectorOf(chip, buf, p);
    }
  }

  /** Without group 3 there is no signal reading either. */
  lemma {:induction false} SignalNeedsVector(chip: Chip, buf: Bytes)
    requires CAccepts(chip, buf) && PythonView(chip, buf).Decoded? && PythonView(chip, buf).value.rssi.Some?
    ensures Present(chip, Le32(buf, 4))[3]
  {
    SameGroups(chip, buf);
  }

  /** The two hosts' records of one transfer. */
  lemma {:induction false} ReceivedAlike(chip: Chip, buf: Bytes, asked: nat)
    requires CAccepts(chip, buf) && asked < 0x1_0000
    ensures PythonView(chip, buf).Decoded?
    ensures var a, c := PythonReceived(chip, buf, asked), CReceived(chip, buf);
            && RadiotapWriters.RecordOk(a) && RadiotapWriters.RecordOk(c) && a.low == c.low && a.badFcs == c.badFcs
            && (a.frequency == c.frequency <==>
                ChannelIndex(buf) <= 244 && (ChannelIndex(buf) == 0 ==> asked == 2407))
            && (RateVectors.PythonSignalOctet(a) == RateVectors.CSignalOctet(c) <==>
                PythonView(chip, buf).value.rssi.Some?)
  {
    CRefinesPython(chip, buf);
    SameFrequency(Le32(buf, 12), asked);
    SignalRange(chip, buf);
  }

  /** A known signal is a chain reading, between -110 and -1. */
  lemma {:induction false} SignalRange(chip: Chip, buf: Bytes)
    ensures var d := PythonView(chip, buf);
            d.Decoded? && d.value.rssi.Some? ==> -110 <= d.value.rssi.value <= -1
  {
    var d := PythonView(chip, buf);
    if d.Decoded? && d.value.rssi.Some? {
      var word := PythonSignalWord(chip, buf, Stepped(Present(chip, Le32(buf, 4))));
      StrongestMeaning(Chains(word.value));
    }
  }

  /** When both hosts write the same packet of a transfer: the signal is known, the channel fits the
      C field and is not left to the channel asked for, and the rate fields are treated alike. */
  predicate SamePacket(chip: Chip, buf: Bytes, asked: nat)
    requires PythonView(chip, buf).Decoded?
  {
    && PythonView(chip, buf).value.rssi.Some?
    && ChannelIndex(buf) <= 244 && (ChannelIndex(buf) == 0 ==> asked == 2407)
    && match PythonVector(chip, buf)
       case None => false
       case Some(words) => RateVectors.WrittenAlike(chip, RateVectors.PythonBits(chip, words.0, words.1))
  }

  /** From the octets of the transfer to those of the packet, for every transfer C accepts: both hosts
      write the same frame, and under the same header if and only if SamePacket holds. */
  lemma {:induction false} PacketsExactly(chip: Chip, buf: Bytes, asked: nat)
    requires CAccepts(chip, buf) && asked < 0x1_0000
    ensures PythonView(chip, buf).Decoded? && PythonView(chip, buf).value.frame == CView(chip, buf).frame
    ensures var a, c := PythonReceived(chip, buf, asked), CReceived(chip, buf);
            && RadiotapWriters.RecordOk(a) && RadiotapWriters.RecordOk(c)
            && (RadiotapWriters.HeaderOf(Python, a) == RadiotapWriters.HeaderOf(C, c) <==> SamePacket(chip, buf, asked))
  {
    CRefinesPython(chip, buf);
    ReceivedAlike(chip, buf, asked);
    SameVector(chip, buf);
    var a, c := PythonReceived(chip, buf, asked), CReceived(chip, buf);
    if PythonVector(chip, buf).Some? {
      var words := PythonVector(chip, buf).value;
      RateVectors.DecodedHeadersExactly(chip, words.0, words.1, a, c);
    } else {
      RateVectors.HeadersTell(a, c);
      NoVector(chip, buf, a, c);
    }
  }

  lemma {:induction false} NoVector(chip: Chip, buf: Bytes, a: Record, c: Record)
    requires CAccepts(chip, buf) && PythonView(chip, buf).Decoded? && PythonVector(chip, buf).None?
    requires RadiotapWriters.RecordOk(a) && RadiotapWriters.RecordOk(c)
    requires RateVectors.PythonSignalOctet(a) == RateVectors.CSignalOctet(c) <==>
             PythonView(chip, buf).value.rssi.Some?
    ensures RadiotapWriters.PythonContent(a) != RadiotapWriters.CContent(c)
  {
    SameVector(chip, buf);
    if RadiotapWriters.PythonContent(a) == RadiotapWriters.CContent(c) {
      RateVectors.SignalTells(a, c);
      SignalNeedsVector(chip, buf);
      assert false;
    }
  }
}
