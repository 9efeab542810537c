/** The 802.11be Multi-Link element (rxd.py, parse_multi_link): what a station writes is what a
    watcher reads, through both levels of fragmentation. */
module MultiLink {
  import opened Wire
  import opened Elements

  const EXT_EID_MULTI_LINK: Byte := 107
  const TYPE_BASIC: nat := 0
  const TYPE_TDLS: nat := 3
  const PER_STA_PROFILE: Byte := 0

  /** Presence bits of the Basic variant, in subfield order, and the subfield widths. */
  function PresenceBit(k: nat): (bit: nat)
    requires k < 6
    ensures bit > 0
  {
    if k == 0 then 16 else if k == 1 then 32 else if k == 2 then 64
    else if k == 3 then 128 else if k == 4 then 256 else 512
  }

  function PresenceWidth(k: nat): (width: nat)
    requires k < 6
    ensures 1 <= width <= 2
  {
    if k == 0 || k == 1 || k == 5 then 1 else 2
  }

  datatype Profile = Profile(linkId: nat, complete: bool, staMac: Option<Bytes>, truncated: bool)

  /** `fields` holds the six optional Common Info subfields in wire order. */
  datatype MultiLinkInfo = MultiLinkInfo(mlType: nat, mldMac: Option<Bytes>, apMldMac: Option<Bytes>,
                                         fields: seq<Option<nat>>, links: seq<Profile>, truncated: bool)

  // ---------------------------------------------------------------- reader

  function ParsePerSta(value: Bytes): Option<Profile> {
    if |value| < 3 then None
    else
      var control := Le16(value, 0);
      var info := Slice(value, 2, 2 + value[2] as int);
      var linkId, complete := control % 16, Bit(control, 16);
      if !Bit(control, 32) then Some(Profile(linkId, complete, None, false))
      else if |info| >= 7 then Some(Profile(linkId, complete, Some(info[1..7]), false))
      else Some(Profile(linkId, complete, None, true))
  }

  method ReadProfile(value: Bytes) returns (profile: Option<Profile>)
    ensures profile == ParsePerSta(value)
  {
    if |value| < 3 {
      return None;
    }
    var control, length := Le16(value, 0), value[2] as int;
    var info := Slice(value, 2, 2 + length);
    var out := Profile(control % 16, control / 16 % 2 == 1, None, false);
    if control / 32 % 2 == 1 {
      if |info| >= 7 {
        out := out.(staMac := Some(info[1..7]));
      } else {
        out := out.(truncated := true);
      }
    }
    profile := Some(out);
  }

  const NO_FIELDS: seq<Option<nat>> := [None, None, None, None, None, None]

  datatype Presence = Presence(fields: seq<Option<nat>>, truncated: bool)

  function ReadField(common: Bytes, offset: nat, width: nat): nat
    requires width <= 2 && offset + width <= |common|
  {
    if width == 1 then common[offset] else if width == 2 then Le16(common, offset) else 0
  }

  /** Which subfields a control word announces. */
  function Shown(control: nat): (shown: seq<bool>)
    ensures |shown| == 6 && forall k :: 0 <= k < 6 ==> shown[k] == Bit(control, PresenceBit(k))
  {
    seq(6, k requires 0 <= k < 6 => Bit(control, PresenceBit(k)))
  }

  /** One subfield at `offset`, by its number: not announced, cut off, or there. */
  datatype Subfield = Absent | Missing | Here(value: nat)

  function SubfieldAt(common: Bytes, shown: seq<bool>, k: nat, offset: nat): Subfield
    requires k < 6 == |shown|
  {
    if !shown[k] then Absent
    else if |common| < offset + PresenceWidth(k) then Missing
    else Here(ReadField(common, offset, PresenceWidth(k)))
  }

  function Pushed(field: Option<nat>, p: Presence): Presence {
    Presence([field] + p.fields, p.truncated)
  }

  /** Subfields `k`.. read from `offset`; a missing octet ends the walk. */
  function PresentFrom(common: Bytes, shown: seq<bool>, k: nat, offset: nat): (p: Presence)
    requires k <= 6 == |shown|
    decreases |shown| - k
  {
    if k == 6 then Presence([], false)
    else
      match SubfieldAt(common, shown, k, offset)
      case Absent => Pushed(None, PresentFrom(common, shown, k + 1, offset))
      case Missing => Presence(NO_FIELDS[k..], true)
      case Here(v) => Pushed(Some(v), PresentFrom(common, shown, k + 1, offset + PresenceWidth(k)))
  }

  function Joined(fields: seq<Option<nat>>, p: Presence): Presence {
    Presence(fields + p.fields, p.truncated)
  }

  lemma {:induction false} JoinedPushed(fields: seq<Option<nat>>, field: Option<nat>, p: Presence)
    ensures Joined(fields, Pushed(field, p)) == Joined(fields + [field], p)
  {
    Assoc(fields, [field], p.fields);
  }

  method WalkPresence(common: Bytes, control: nat) returns (fields: seq<Option<nat>>, truncated: bool)
    ensures Presence(fields, truncated) == PresentFrom(common, Shown(control), 0, 7)
  {
    ghost var shown := Shown(control);
    var bits: seq<nat>, widths: seq<nat> := [0x10, 0x20, 0x40, 0x80, 0x100, 0x200], [1, 1, 2, 2, 2, 1];
    var offset: nat := 7;
    fields, truncated := [], false;
    ghost var whole := PresentFrom(common, shown, 0, 7);
    Nil(whole.fields);
    for k := 0 to 6
      invariant |fields| == k && whole == Joined(fields, PresentFrom(common, shown, k, offset))
    {
      var width := widths[k];
      assert bits[k] == PresenceBit(k) && width == PresenceWidth(k);
      if !Bit(control, bits[k]) {
        JoinedPushed(fields, None, PresentFrom(common, shown, k + 1, offset));
        fields := fields + [None];
      } else if |common| < offset + width {
        fields, truncated := fields + NO_FIELDS[k..], true;
        return;
      } else {
        var field := Some(ReadField(common, offset, width));
        JoinedPushed(fields, field, PresentFrom(common, shown, k + 1, offset + width));
        fields, offset := fields + [field], offset + width;
      }
    }
    Nil(fields);
  }

  datatype Links = Links(profiles: seq<Profile>, truncated: bool)

  /** The profiles among the subelements, and whether one was too short to read. */
  function LinksOf(subs: seq<Element>): Links {
    if subs == [] then Links([], false)
    else
      var init := LinksOf(subs[..|subs| - 1]);
      var s := subs[|subs| - 1];
      if s.id != PER_STA_PROFILE then init
      else match ParsePerSta(s.value)
        case None => Links(init.profiles, true)
        case Some(p) => Links(init.profiles + [p], init.truncated)
  }

  /** Common Info of a body that holds all of it. */
  function CommonInfo(mlType: nat, common: Bytes, control: nat): MultiLinkInfo {
    if mlType == TYPE_BASIC then
      var p := PresentFrom(common, Shown(control), 0, 7);
      MultiLinkInfo(mlType, if |common| >= 7 then Some(common[1..7]) else None, None,
                    p.fields, [], |common| < 7 || p.truncated)
    else
      MultiLinkInfo(mlType, None, if mlType == TYPE_TDLS && |common| >= 7 then Some(common[1..7]) else None,
                    NO_FIELDS, [], false)
  }

  function MultiLinkOfBody(body: Bytes): Option<MultiLinkInfo> {
    if |body| < 2 then None
    else
      var control := Le16(body, 0);
      var mlType := control % 8;
      if |body| < 3 || |Slice(body, 2, 2 + body[2] as int)| < body[2] then
        Some(MultiLinkInfo(mlType, None, None, NO_FIELDS, [], true))
      else
        var info := CommonInfo(mlType, body[2..2 + body[2]], control);
        var walk := SubelementsOf(body[2 + body[2]..]);
        var links := LinksOf(walk.subs);
        Some(info.(links := links.profiles, truncated := info.truncated || walk.truncated || links.truncated))
  }

  function MultiLinkOf(ieList: seq<Element>): Option<MultiLinkInfo> {
    match Reassembled(ieList, EXT_EID_MULTI_LINK)
    case None => None
    case Some(body) => MultiLinkOfBody(body)
  }

  method ParseMultiLink(ieList: seq<Element>) returns (r: Option<MultiLinkInfo>)
    ensures r == MultiLinkOf(ieList)
  {
    var joined := ReassembleExtension(ieList, 107);
    if joined.None? || |joined.value| < 2 {
      return None;
    }
    var body := joined.value;
    var control := Le16(body, 0);
    var mlType := control % 8;
    var out := MultiLinkInfo(mlType, None, None, NO_FIELDS, [], false);
    if |body| < 3 {
      return Some(out.(truncated := true));
    }
    var commonLen := body[2];
    var common := Slice(body, 2, 2 + commonLen as int);
    if |common| < commonLen {
      return Some(out.(truncated := true));
    }
    if mlType == 0 {
      if |common| >= 7 {
        out := out.(mldMac := Some(common[1..7]));
      } else {
        out := out.(truncated := true);
      }
      var fields, cut := WalkPresence(common, control);
      out := out.(fields := fields, truncated := out.truncated || cut);
    } else if mlType == 3 && |common| >= 7 {
      out := out.(apMldMac := Some(common[1..7]));
    }
    assert out == CommonInfo(mlType, body[2..2 + commonLen], control);
    var subs, cut := ReassembleSubelements(body[2 + commonLen..]);
    out := out.(truncated := out.truncated || cut);
    ghost var common0 := out;
    for i := 0 to |subs|
      invariant var l := LinksOf(subs[..i]);
                out == common0.(links := l.profiles, truncated := common0.truncated || l.truncated)
    {
      assert subs[..i + 1][..i] == subs[..i];
      if subs[i].id != 0 {
        continue;
      }
      var profile := ReadProfile(subs[i].value);
      if profile.None? {
        out := out.(truncated := true);
        continue;
      }
      out := out.(links := out.links + [profile.value]);
    }
    assert subs[..|subs|] == subs;
    return Some(out);
  }

  // ---------------------------------------------------------------- writer

  /** One Per-STA Profile: `flags` are the STA Control bits above the three this reader uses,
      `more` the STA Info subfields after the address, `elements` the profile that follows. */
  datatype Station = Station(linkId: nat, complete: bool, mac: Option<Bytes>, flags: nat, more: Bytes, elements: Bytes)

  ghost predicate ValidStation(s: Station) {
    s.linkId < 16 && s.flags < 1024 && |StaInfo(s)| <= 254 && (s.mac.Some? ==> |s.mac.value| == 6)
  }

  function StaControl(s: Station): nat {
    s.linkId + (if s.complete then 16 else 0) + (if s.mac.Some? then 32 else 0) + 64 * s.flags
  }

  function StaInfo(s: Station): Bytes {
    (if s.mac.Some? then s.mac.value else []) + s.more
  }

  function ProfileBytes(s: Station): Bytes
    requires ValidStation(s)
  {
    PutLe16(StaControl(s)) + ([1 + |StaInfo(s)|] + StaInfo(s)) + s.elements
  }

  function LinkInfo(stations: seq<Station>): (subs: seq<Element>)
    requires forall s :: s in stations ==> ValidStation(s)
    ensures |subs| == |stations|
    ensures forall i :: 0 <= i < |subs| ==> subs[i] == Element(0, ProfileBytes(stations[i]))
  {
    seq(|stations|, i requires 0 <= i < |stations| => Element(0, ProfileBytes(stations[i])))
  }

  /** The optional subfields of Common Info. */
  datatype Common = Common(linkId: Option<nat>, changeCount: Option<nat>, syncDelay: Option<nat>, eml: Option<nat>,
                           mld: Option<nat>, mldId: Option<nat>)

  predicate Below(v: Option<nat>, limit: nat) {
    v.Some? ==> v.value < limit
  }

  ghost predicate ValidCommon(c: Common) {
    && Below(c.linkId, 256) && Below(c.changeCount, 256) && Below(c.mldId, 256)
    && Below(c.syncDelay, 65536) && Below(c.eml, 65536) && Below(c.mld, 65536)
  }

  function OneOctet(v: Option<nat>): (b: Bytes)
    requires Below(v, 256)
    ensures |b| <= 1
  {
    if v.None? then [] else [v.value]
  }

  function TwoOctets(v: Option<nat>): (b: Bytes)
    requires Below(v, 65536)
    ensures |b| <= 2
  {
    if v.None? then [] else PutLe16(v.value)
  }

  /** The subfields in order, each with its own width. */
  function SubfieldOctets(c: Common): (b: Bytes)
    requires ValidCommon(c)
    ensures |b| <= 9
  {
    OneOctet(c.linkId) + (OneOctet(c.changeCount) + (TwoOctets(c.syncDelay) + (TwoOctets(c.eml) +
    (TwoOctets(c.mld) + OneOctet(c.mldId)))))
  }

  function PresenceControl(c: Common): (control: nat)
    ensures control < 1024
  {
    (if c.linkId.Some? then 0x10 else 0) + (if c.changeCount.Some? then 0x20 else 0) +
    (if c.syncDelay.Some? then 0x40 else 0) + (if c.eml.Some? then 0x80 else 0) +
    (if c.mld.Some? then 0x100 else 0) + (if c.mldId.Some? then 0x200 else 0)
  }

  /** Common Info, whose first octet counts itself. */
  function CommonBytes(mldMac: Bytes, c: Common): (b: Bytes)
    requires |mldMac| == 6 && ValidCommon(c)
    ensures |b| >= 7 && |b| == b[0] && b[1..7] == mldMac && b[7..] == SubfieldOctets(c)
  {
    [7 + |SubfieldOctets(c)|] + mldMac + SubfieldOctets(c)
  }

  function BasicBody(mldMac: Bytes, c: Common, stations: seq<Station>): Bytes
    requires |mldMac| == 6 && ValidCommon(c)
    requires forall s :: s in stations ==> ValidStation(s)
  {
    PutLe16(PresenceControl(c)) + CommonBytes(mldMac, c) + Encode(FragmentedAll(LinkInfo(stations), 254))
  }

  /** The subfields as the reader lists them. */
  function FieldsOf(c: Common): (fields: seq<Option<nat>>)
    ensures |fields| == 6
  {
    [c.linkId, c.changeCount, c.syncDelay, c.eml, c.mld, c.mldId]
  }

  function ProfileOf(s: Station): Profile {
    Profile(s.linkId, s.complete, s.mac, false)
  }

  function ProfilesOf(stations: seq<Station>): (ps: seq<Profile>)
    ensures |ps| == |stations| && forall i :: 0 <= i < |ps| ==> ps[i] == ProfileOf(stations[i])
  {
    seq(|stations|, i requires 0 <= i < |stations| => ProfileOf(stations[i]))
  }

  // ---------------------------------------------------------------- round trip

  lemma {:induction false} StaControlBits(s: Station)
    requires ValidStation(s)
    ensures var c := StaControl(s);
            c % 16 == s.linkId && Bit(c, 16) == s.complete && Bit(c, 32) == s.mac.Some?
  {
    var complete, mac := if s.complete then 1 else 0, if s.mac.Some? then 1 else 0;
    var q := mac + 2 * s.flags;
    Digit(s.linkId, complete + 2 * q, 16);
    Digit(s.linkId + 16 * complete, q, 32);
    Digit(complete, q, 2);
    Digit(mac, s.flags, 2);
  }

  lemma {:induction false} PerStaStep(value: Bytes, control: nat, info: Bytes)
    requires |value| >= 3 && Le16(value, 0) == control && Slice(value, 2, 2 + value[2] as int) == info
    requires Bit(control, 32) ==> |info| >= 7
    ensures ParsePerSta(value) ==
            Some(Profile(control % 16, Bit(control, 16), if Bit(control, 32) then Some(info[1..7]) else None, false))
  {
  }

  lemma {:induction false} PerStaRoundTrip(s: Station)
    requires ValidStation(s)
    ensures ParsePerSta(ProfileBytes(s)) == Some(ProfileOf(s))
  {
    var info := [1 + |StaInfo(s)|] + StaInfo(s);
    StaControlBits(s);
    Sections(StaControl(s), info, s.elements);
    PerStaStep(ProfileBytes(s), StaControl(s), info);
    if s.mac.Some? {
      assert StaInfo(s)[..6] == s.mac.value;
      assert info[1..7] == StaInfo(s)[..6];
    }
  }

  lemma {:induction false} LinksRoundTrip(stations: seq<Station>)
    requires forall s :: s in stations ==> ValidStation(s)
    ensures LinksOf(LinkInfo(stations)) ==
            Links(ProfilesOf(stations), false)
  {
    if stations != [] {
      var n := |stations| - 1;
      assert LinkInfo(stations)[..n] == LinkInfo(stations[..n]);
      LinksRoundTrip(stations[..n]);
      assert stations[n] in stations;
      PerStaRoundTrip(stations[n]);
    }
  }

  /** Bits from k on, as an integer. */
  function BitsFrom(fields: seq<Option<nat>>, k: nat): nat
    requires k <= |fields|
    decreases |fields| - k
  {
    if k == |fields| then 0 else (if fields[k].Some? then 1 else 0) + 2 * BitsFrom(fields, k + 1)
  }

  lemma {:induction false} ControlIsBits(c: Common)
    ensures PresenceControl(c) == 16 * BitsFrom(FieldsOf(c), 0)
  {
    var fields := FieldsOf(c);
    assert BitsFrom(fields, 6) == 0;
    assert BitsFrom(fields, 5) == if fields[5].Some? then 1 else 0;
    assert BitsFrom(fields, 3) == (if fields[3].Some? then 1 else 0) + 2 * BitsFrom(fields, 4);
    assert BitsFrom(fields, 1) == (if fields[1].Some? then 1 else 0) + 2 * BitsFrom(fields, 2);
  }

  lemma {:induction false} ShiftedBits(c: Common, k: nat)
    requires k < 6
    ensures PresenceControl(c) / PresenceBit(k) == BitsFrom(FieldsOf(c), k)
  {
    ControlIsBits(c);
    if k > 0 {
      ShiftedBits(c, k - 1);
      HalvedBits(PresenceControl(c), k);
      Digit(if FieldsOf(c)[k - 1].Some? then 1 else 0, BitsFrom(FieldsOf(c), k), 2);
    }
  }

  lemma {:induction false} HalvedBits(control: nat, k: nat)
    requires 0 < k < 6
    ensures control / PresenceBit(k) == control / PresenceBit(k - 1) / 2
  {
  }

  lemma {:induction false} ControlBits(c: Common, k: nat)
    requires k < 6
    ensures Shown(PresenceControl(c))[k] == FieldsOf(c)[k].Some?
  {
    ShiftedBits(c, k);
    Digit(if FieldsOf(c)[k].Some? then 1 else 0, BitsFrom(FieldsOf(c), k + 1), 2);
  }

  /** Octets of one subfield. */
  function PutField(width: nat, v: Option<nat>): (b: Bytes)
    requires Below(v, if width == 1 then 256 else 65536)
    ensures |b| == if v.None? then 0 else if width == 1 then 1 else 2
  {
    if v.None? then [] else if width == 1 then [v.value] else PutLe16(v.value)
  }

  lemma {:induction false} FieldAt(common: Bytes, offset: nat, width: nat, v: nat, rest: Bytes)
    requires 1 <= width <= 2 && v < (if width == 1 then 256 else 65536)
    requires offset <= |common| && common[offset..] == PutField(width, Some(v)) + rest
    ensures offset + width <= |common| && ReadField(common, offset, width) == v
    ensures common[offset + width..] == rest
  {
    var here := common[offset..];
    assert here[width..] == rest;
    assert common[offset + width..] == here[width..];
    assert common[offset] == here[0] && (width == 2 ==> common[offset + 1] == here[1]);
  }

  /** A walk from subfield k at `offset` reads these, and nothing is missing. */
  ghost predicate Reads(common: Bytes, shown: seq<bool>, k: nat, offset: nat, fields: seq<Option<nat>>) {
    k <= 6 == |shown| && PresentFrom(common, shown, k, offset) == Presence(fields, false)
  }

  /** One subfield before the others. */
  lemma {:induction false} FieldRead(common: Bytes, shown: seq<bool>, k: nat, offset: nat, v: Option<nat>, rest: Bytes,
                                     fields: seq<Option<nat>>)
    requires k < 6 == |shown| && shown[k] == v.Some? && offset <= |common|
    requires Below(v, if PresenceWidth(k) == 1 then 256 else 65536)
    requires common[offset..] == PutField(PresenceWidth(k), v) + rest
    requires Reads(common, shown, k + 1, offset + |PutField(PresenceWidth(k), v)|, fields)
    ensures Reads(common, shown, k, offset, [v] + fields)
  {
    if v.Some? {
      FieldAt(common, offset, PresenceWidth(k), v.value, rest);
    }
    PresenceStep(common, shown, k, offset, v, fields);
  }

  lemma {:induction false} LastTwo(common: Bytes, shown: seq<bool>, at: nat, c: Common)
    requires ValidCommon(c) && |shown| == 6 && at <= |common|
    requires shown[4] == c.mld.Some? && shown[5] == c.mldId.Some?
    requires common[at..] == TwoOctets(c.mld) + OneOctet(c.mldId)
    ensures Reads(common, shown, 4, at, [c.mld, c.mldId])
  {
    var f, g := TwoOctets(c.mld), OneOctet(c.mldId);
    RestAt(common, at, f, g);
    Nil(g);
    FieldRead(common, shown, 5, at + |f|, c.mldId, [], []);
    FieldRead(common, shown, 4, at, c.mld, g, [c.mldId]);
  }

  lemma {:induction false} LastThree(common: Bytes, shown: seq<bool>, at: nat, c: Common)
    requires ValidCommon(c) && |shown| == 6 && at <= |common|
    requires shown[3] == c.eml.Some? && shown[4] == c.mld.Some? && shown[5] == c.mldId.Some?
    requires common[at..] == TwoOctets(c.eml) + (TwoOctets(c.mld) + OneOctet(c.mldId))
    ensures Reads(common, shown, 3, at, [c.eml, c.mld, c.mldId])
  {
    var e, f, g := TwoOctets(c.eml), TwoOctets(c.mld), OneOctet(c.mldId);
    RestAt(common, at, e, f + g);
    LastTwo(common, shown, at + |e|, c);
    FieldRead(common, shown, 3, at, c.eml, f + g, [c.mld, c.mldId]);
  }

  lemma {:induction false} FirstThree(common: Bytes, shown: seq<bool>, at: nat, c: Common, rest: Bytes,
                                      fields: seq<Option<nat>>)
    requires ValidCommon(c) && |shown| == 6 && at <= |common|
    requires shown[0] == c.linkId.Some? && shown[1] == c.changeCount.Some? && shown[2] == c.syncDelay.Some?
    requires common[at..] == OneOctet(c.linkId) + (OneOctet(c.changeCount) + (TwoOctets(c.syncDelay) + rest))
    requires Reads(common, shown, 3, at + |OneOctet(c.linkId)| + |OneOctet(c.changeCount)| + |TwoOctets(c.syncDelay)|,
                   fields)
    ensures Reads(common, shown, 0, at, [c.linkId] + ([c.changeCount] + ([c.syncDelay] + fields)))
  {
    var a, b, d := OneOctet(c.linkId), OneOctet(c.changeCount), TwoOctets(c.syncDelay);
    RestAt(common, at, a, b + (d + rest));
    NextTwo(common, shown, at + |a|, c, rest, fields);
    FieldRead(common, shown, 0, at, c.linkId, b + (d + rest), [c.changeCount] + ([c.syncDelay] + fields));
  }

  lemma {:induction false} NextTwo(common: Bytes, shown: seq<bool>, at: nat, c: Common, rest: Bytes,
                                   fields: seq<Option<nat>>)
    requires ValidCommon(c) && |shown| == 6 && at <= |common|
    requires shown[1] == c.changeCount.Some? && shown[2] == c.syncDelay.Some?
    requires common[at..] == OneOctet(c.changeCount) + (TwoOctets(c.syncDelay) + rest)
    requires Reads(common, shown, 3, at + |OneOctet(c.changeCount)| + |TwoOctets(c.syncDelay)|, fields)
    ensures Reads(common, shown, 1, at, [c.changeCount] + ([c.syncDelay] + fields))
  {
    var b, d := OneOctet(c.changeCount), TwoOctets(c.syncDelay);
    RestAt(common, at, b, d + rest);
    FieldRead(common, shown, 2, at + |b|, c.syncDelay, rest, fields);
    FieldRead(common, shown, 1, at, c.changeCount, d + rest, [c.syncDelay] + fields);
  }

  lemma {:induction false} ThreeRest(common: Bytes, at: nat, a: Bytes, b: Bytes, d: Bytes, rest: Bytes)
    requires at <= |common| && common[at..] == a + (b + (d + rest))
    ensures var next := at + |a| + |b| + |d|; next <= |common| && common[next..] == rest
  {
    RestAt(common, at, a, b + (d + rest));
    RestAt(common, at + |a|, b, d + rest);
    RestAt(common, at + |a| + |b|, d, rest);
  }

  lemma {:induction false} SixSubfields(common: Bytes, shown: seq<bool>, c: Common)
    requires ValidCommon(c) && |common| >= 7 && common[7..] == SubfieldOctets(c)
    requires |shown| == 6 && forall k :: 0 <= k < 6 ==> shown[k] == FieldsOf(c)[k].Some?
    ensures Reads(common, shown, 0, 7, [c.linkId] + ([c.changeCount] + ([c.syncDelay] + [c.eml, c.mld, c.mldId])))
  {
    var a, b, d := OneOctet(c.linkId), OneOctet(c.changeCount), TwoOctets(c.syncDelay);
    var rest := TwoOctets(c.eml) + (TwoOctets(c.mld) + OneOctet(c.mldId));
    ThreeRest(common, 7, a, b, d, rest);
    LastThree(common, shown, 7 + |a| + |b| + |d|, c);
    FirstThree(common, shown, 7, c, rest, [c.eml, c.mld, c.mldId]);
  }

  /** All six subfields come back, in order, and nothing is reported missing. */
  lemma {:induction false} SubfieldsRoundTrip(common: Bytes, c: Common)
    requires ValidCommon(c) && |common| >= 7 && common[7..] == SubfieldOctets(c)
    ensures Reads(common, Shown(PresenceControl(c)), 0, 7, FieldsOf(c))
  {
    forall k | 0 <= k < 6
      ensures Shown(PresenceControl(c))[k] == FieldsOf(c)[k].Some?
    {
      ControlBits(c, k);
    }
    SixSubfields(common, Shown(PresenceControl(c)), c);
    SixFields(c);
  }

  lemma {:induction false} SixFields(c: Common)
    ensures FieldsOf(c) == [c.linkId] + ([c.changeCount] + ([c.syncDelay] + [c.eml, c.mld, c.mldId]))
  {
  }

  lemma {:induction false} ControlType(c: Common)
    ensures PresenceControl(c) % 8 == 0
  {
  }

  lemma {:induction false} RestAt(common: Bytes, at: nat, a: Bytes, rest: Bytes)
    requires at <= |common| && common[at..] == a + rest
    ensures at + |a| <= |common| && common[at + |a|..] == rest
  {
    assert common[at + |a|..] == common[at..][|a|..];
  }

  lemma {:induction false} PresenceStep(common: Bytes, shown: seq<bool>, k: nat, offset: nat, field: Option<nat>,
                                        rest: seq<Option<nat>>)
    requires k < 6 == |shown|
    requires SubfieldAt(common, shown, k, offset) == if field.None? then Absent else Here(field.value)
    requires var width := if field.None? then 0 else PresenceWidth(k);
             PresentFrom(common, shown, k + 1, offset + width) == Presence(rest, false)
    ensures PresentFrom(common, shown, k, offset) == Presence([field] + rest, false)
  {
  }

  lemma {:induction false} BodyRoundTrip(mldMac: Bytes, c: Common, stations: seq<Station>)
    requires |mldMac| == 6 && ValidCommon(c)
    requires forall s :: s in stations ==> ValidStation(s)
    ensures MultiLinkOfBody(BasicBody(mldMac, c, stations)) ==
            Some(MultiLinkInfo(0, Some(mldMac), None, FieldsOf(c), ProfilesOf(stations), false))
  {
    var body := BasicBody(mldMac, c, stations);
    var control, common := PresenceControl(c), CommonBytes(mldMac, c);
    Sections(control, common, Encode(FragmentedAll(LinkInfo(stations), 254)));
    ControlType(c);
    SubfieldsRoundTrip(common, c);
    SubelementRoundTrip(LinkInfo(stations));
    LinksRoundTrip(stations);
    BodyStep(body, control, common, FieldsOf(c), LinkInfo(stations));
  }

  lemma {:induction false} BodyStep(body: Bytes, control: nat, common: Bytes, fields: seq<Option<nat>>,
                                    subs: seq<Element>)
    requires |body| >= 3 && Le16(body, 0) == control && control % 8 == TYPE_BASIC
    requires |common| >= 7 && body[2] == |common| && 2 + |common| <= |body|
    requires Slice(body, 2, 2 + body[2] as int) == body[2..2 + body[2]] == common
    requires Reads(common, Shown(control), 0, 7, fields)
    requires SubelementsOf(body[2 + body[2]..]) == SubWalk(subs, false) && !LinksOf(subs).truncated
    ensures MultiLinkOfBody(body) ==
            Some(MultiLinkInfo(TYPE_BASIC, Some(common[1..7]), None, fields, LinksOf(subs).profiles, false))
  {
  }

  lemma {:induction false} Sections(control: nat, common: Bytes, links: Bytes)
    requires control < 65536 && |common| >= 1 && |common| == common[0]
    ensures var body := PutLe16(control) + common + links;
            && Le16(body, 0) == control && body[2] == |common|
            && body[2..2 + body[2]] == common && body[2 + body[2]..] == links
            && Slice(body, 2, 2 + body[2] as int) == common
  {
    var body := PutLe16(control) + common + links;
    assert body[0] == PutLe16(control)[0] && body[1] == PutLe16(control)[1] && body[2] == common[0];
  }

  /** A profile that announces an address its STA Info is too short for. */
  lemma {:induction false} ProfileCut(s: Station, n: Byte, rest: Bytes)
    requires ValidStation(s) && s.mac.Some? && (n < 7 || |rest| < 6)
    ensures ParsePerSta(PutLe16(StaControl(s)) + ([n] + rest)) == Some(Profile(s.linkId, s.complete, None, true))
  {
    var word := PutLe16(StaControl(s));
    var value := word + ([n] + rest);
    assert value[0] == word[0] && value[1] == word[1] && value[2] == n;
    StaControlBits(s);
  }

  /** Elements of the other types, `flags` the control bits above the type: only TDLS has an address, that
      of the AP; the links are read all the same. */
  lemma {:induction false} OtherBody(mlType: nat, flags: nat, common: Bytes, links: Bytes)
    requires 0 < mlType < 8 && flags < 8192 && |common| >= 1 && |common| == common[0]
    ensures var walk := SubelementsOf(links);
            var read := LinksOf(walk.subs);
            MultiLinkOfBody(PutLe16(mlType + 8 * flags) + common + links) ==
            Some(MultiLinkInfo(mlType, None, if mlType == 3 && |common| >= 7 then Some(common[1..7]) else None,
                               [None, None, None, None, None, None], read.profiles, walk.truncated || read.truncated))
  {
    Sections(mlType + 8 * flags, common, links);
    Digit(mlType, flags, 8);
  }

  /** A body that ends before its Common Info does says nothing but its type. */
  lemma {:induction false} BodyCut(mlType: nat, flags: nat, n: Byte, rest: Bytes)
    requires mlType < 8 && flags < 8192 && |rest| + 1 < n
    ensures var nothing := Some(MultiLinkInfo(mlType, None, None, [None, None, None, None, None, None], [], true));
            && MultiLinkOfBody(PutLe16(mlType + 8 * flags)) == nothing
            && MultiLinkOfBody(PutLe16(mlType + 8 * flags) + ([n] + rest)) == nothing
  {
    var word := PutLe16(mlType + 8 * flags);
    var body := word + ([n] + rest);
    assert body[0] == word[0] && body[1] == word[1] && body[2] == n;
    Digit(mlType, flags, 8);
  }

  /** What a reader gets besides the payload when its last piece is full and Fragment elements follow. */
  function Extra(payload: Bytes, after: seq<Element>): Bytes {
    if Open([107] + payload) then Continuation(after) else []
  }

  lemma {:induction false} NoExtra(payload: Bytes, after: seq<Element>)
    ensures Extra(payload, after) == [] <==>
            !Open([107] + payload) || after == [] || after[0].id != 242 || after[0].value == []
  {
  }

  /** Every Basic Multi-Link element, however long, placed between any other elements of a frame and
      fragmented at both levels, is parsed as its own octets and nothing else exactly when no
      non-empty Fragment element follows a full last piece. Then it is read back exactly: the MLD
      address, all six optional subfields, and every link's address in order, with nothing reported
      truncated. Otherwise what is parsed is the octets with those fragments appended. */
  lemma {:induction false} MultiLinkRoundTrip(before: seq<Element>, mldMac: Bytes, c: Common,
                                             stations: seq<Station>, after: seq<Element>)
    requires |mldMac| == 6 && ValidCommon(c)
    requires forall s :: s in stations ==> ValidStation(s)
    requires Fits(before) && Fits(after)
    requires forall i :: 0 <= i < |before| ==> !Starts(before[i], 107)
    ensures var body := BasicBody(mldMac, c, stations);
            var sent := before + ExtensionPieces(107, body) + after;
            && Fits(sent)
            && MultiLinkOf(Walk(Encode(sent))) == MultiLinkOfBody(body + Extra(body, after))
            && (Reassembled(Walk(Encode(sent)), 107) == Some(body) <==> Extra(body, after) == [])
            && (Extra(body, after) == [] ==>
                  MultiLinkOf(Walk(Encode(sent))) ==
                  Some(MultiLinkInfo(0, Some(mldMac), None, FieldsOf(c), ProfilesOf(stations), false)))
  {
    var body := BasicBody(mldMac, c, stations);
    ExtensionRoundTrip(before, 107, body, after);
    ReassembledPieces(before, 107, body, after);
    WalkEncode(before + ExtensionPieces(107, body) + after);
    NoExtra(body, after);
    Nil(body);
    BodyRoundTrip(mldMac, c, stations);
  }
}
