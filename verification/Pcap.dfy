/** Capture files (examples/sniff_to_pcap.py, c/mt7921_rxd.c): what either host writes reads back, by
    a reader of the format, as the captured frames with their times and metadata. */
module Pcap {
  import opened Wire
  import opened Radiotap
  import opened RadiotapWriters

  const MAGIC := 0xA1B2_C3D4
  const LINK_TYPE := 127

  /** A captured frame, its time and its metadata. */
  datatype Captured = Captured(seconds: nat, micros: nat, record: Record, frame: Bytes)

  predicate CapturedOk(x: Captured) {
    x.seconds < U32_LIMIT && x.micros < 1000000 && RecordOk(x.record) && |x.frame| < 0x1_0000
  }

  /** One record of a file: its time and its octets. */
  datatype Entry = Entry(seconds: nat, micros: nat, packet: Bytes)

  predicate EntryOk(e: Entry) {
    e.seconds < U32_LIMIT && e.micros < U32_LIMIT && |e.packet| < U32_LIMIT
  }

  // ---------------------------------------------------------------- the reader

  /** Magic, version 2.4 and the radiotap link type. */
  predicate IsCapture(file: Bytes) {
    && |file| >= 24 && Le32(file, 0) == MAGIC && Le16(file, 4) == 2 && Le16(file, 6) == 4
    && Le32(file, 20) == LINK_TYPE
  }

  /** Records until the end of the file; none if any is cut short. */
  function ReadEntries(file: Bytes, off: nat): Option<seq<Entry>>
    requires off <= |file|
    decreases |file| - off
  {
    if off == |file| then Some([])
    else if off + 16 > |file| || off + 16 + Le32(file, off + 8) > |file| then None
    else
      var end := off + 16 + Le32(file, off + 8);
      var rest := ReadEntries(file, end);
      if rest.None? then None
      else Some([Entry(Le32(file, off), Le32(file, off + 4), file[off + 16..end])] + rest.value)
  }

  /** A frame as read: its time, what its header says, and its octets. */
  datatype Frame = Frame(seconds: nat, micros: nat, content: Content, octets: Bytes)

  function ReadPacket(e: Entry): Option<Frame> {
    var h := ReadHeader(e.packet);
    if h.None? || h.value.1 > |e.packet| then None
    else Some(Frame(e.seconds, e.micros, h.value.0, e.packet[h.value.1..]))
  }

  function ReadPackets(es: seq<Entry>, i: nat): Option<seq<Frame>>
    requires i <= |es|
    decreases |es| - i
  {
    if i == |es| then Some([])
    else
      var first, rest := ReadPacket(es[i]), ReadPackets(es, i + 1);
      if first.None? || rest.None? then None else Some([first.value] + rest.value)
  }

  function ReadCapture(file: Bytes): Option<seq<Frame>> {
    if !IsCapture(file) then None
    else
      var entries := ReadEntries(file, 24);
      if entries.None? then None else ReadPackets(entries.value, 0)
  }

  // ---------------------------------------------------------------- what is written

  /** pcap_header: "<IHHiIII" of magic, version 2.4, zone, accuracy, snapshot length and link type. */
  function FileHeader(): (b: Bytes)
    ensures |b| == 24
  {
    PutLe32(MAGIC) + PutLe16(2) + PutLe16(4) + PutLe32(0) + PutLe32(0) + PutLe32(65535) + PutLe32(LINK_TYPE)
  }

  /** The octets of one entry: time, length twice, packet. */
  function PutEntry(e: Entry): (b: Bytes)
    requires EntryOk(e)
    ensures |b| == 16 + |e.packet|
  {
    PutLe32(e.seconds) + PutLe32(e.micros) + PutLe32(|e.packet|) + PutLe32(|e.packet|) + e.packet
  }

  function EntryOf(host: Host, x: Captured): (e: Entry)
    requires CapturedOk(x)
    ensures EntryOk(e)
  {
    ContentFits(host, x.record);
    Entry(x.seconds, x.micros, HeaderOf(host, x.record) + x.frame)
  }

  function FrameOf(host: Host, x: Captured): Frame
    requires CapturedOk(x)
  {
    Frame(x.seconds, x.micros, ContentOf(host, x.record), x.frame)
  }

  predicate AllOk(xs: seq<Captured>) {
    forall k :: 0 <= k < |xs| ==> CapturedOk(xs[k])
  }

  function EntriesOf(host: Host, xs: seq<Captured>): (es: seq<Entry>)
    requires AllOk(xs)
    ensures |es| == |xs| && forall k :: 0 <= k < |xs| ==> es[k] == EntryOf(host, xs[k]) && EntryOk(es[k])
  {
    seq(|xs|, k requires 0 <= k < |xs| => EntryOf(host, xs[k]))
  }

  function FramesOf(host: Host, xs: seq<Captured>): (fs: seq<Frame>)
    requires AllOk(xs)
    ensures |fs| == |xs| && forall k :: 0 <= k < |xs| ==> fs[k] == FrameOf(host, xs[k])
  {
    seq(|xs|, k requires 0 <= k < |xs| => FrameOf(host, xs[k]))
  }

  function RecordsOf(host: Host, xs: seq<Captured>): (ps: seq<Bytes>)
    requires AllOk(xs)
    ensures |ps| == |xs| && forall k :: 0 <= k < |xs| ==> ps[k] == PutEntry(EntryOf(host, xs[k]))
  {
    seq(|xs|, k requires 0 <= k < |xs| => PutEntry(EntryOf(host, xs[k])))
  }

  // ---------------------------------------------------------------- read back

  lemma {:induction false} SameLe32(h: Bytes, off: nat, v: nat)
    requires v < U32_LIMIT && At(h, off, PutLe32(v))
    ensures Le32(h, off) == v
  {
    AtSlice(h, off, PutLe32(v));
    assert PutLe32(v)[0..4] == PutLe32(v);
    LeAgree(h, off, PutLe32(v), 0, 4);
  }

  lemma {:induction false} HeaderIsCapture(file: Bytes)
    requires At(file, 0, FileHeader())
    ensures IsCapture(file)
  {
    var version := PutLe32(MAGIC) + PutLe16(2) + PutLe16(4);
    var zone := version + PutLe32(0) + PutLe32(0);
    AtParts(file, 0, zone + PutLe32(65535), PutLe32(LINK_TYPE));
    AtParts(file, 0, zone, PutLe32(65535));
    AtParts(file, 0, version + PutLe32(0), PutLe32(0));
    AtParts(file, 0, version, PutLe32(0));
    VersionIs(file);
    SameLe32(file, 20, LINK_TYPE);
  }

  lemma {:induction false} VersionIs(file: Bytes)
    requires At(file, 0, PutLe32(MAGIC) + PutLe16(2) + PutLe16(4))
    ensures Le32(file, 0) == MAGIC && Le16(file, 4) == 2 && Le16(file, 6) == 4
  {
    AtParts(file, 0, PutLe32(MAGIC) + PutLe16(2), PutLe16(4));
    AtParts(file, 0, PutLe32(MAGIC), PutLe16(2));
    SameLe32(file, 0, MAGIC);
    SameLe16(file, 4, 2);
    SameLe16(file, 6, 4);
  }

  lemma {:induction false} EntryAt(file: Bytes, off: nat, e: Entry)
    requires EntryOk(e) && At(file, off, PutEntry(e))
    ensures Le32(file, off) == e.seconds && Le32(file, off + 4) == e.micros && Le32(file, off + 8) == |e.packet|
    ensures file[off + 16..off + 16 + |e.packet|] == e.packet
  {
    var n := PutLe32(|e.packet|);
    AtParts(file, off, PutLe32(e.seconds) + PutLe32(e.micros) + n + n, e.packet);
    AtParts(file, off, PutLe32(e.seconds) + PutLe32(e.micros) + n, n);
    AtParts(file, off, PutLe32(e.seconds) + PutLe32(e.micros), n);
    AtParts(file, off, PutLe32(e.seconds), PutLe32(e.micros));
    SameLe32(file, off, e.seconds);
    SameLe32(file, off + 4, e.micros);
    SameLe32(file, off + 8, |e.packet|);
    AtSlice(file, off + 16, e.packet);
  }

  lemma {:induction false} NextEntry(file: Bytes, off: nat, e: Entry, rest: seq<Entry>)
    requires EntryOk(e) && At(file, off, PutEntry(e))
    requires ReadEntries(file, off + |PutEntry(e)|) == Some(rest)
    ensures ReadEntries(file, off) == Some([e] + rest)
  {
    EntryAt(file, off, e);
  }

  lemma {:induction false} EntriesRoundTrip(file: Bytes, off: nat, ps: seq<Bytes>, es: seq<Entry>, i: nat)
    requires i <= |ps| == |es| && forall k :: 0 <= k < |ps| ==> EntryOk(es[k]) && ps[k] == PutEntry(es[k])
    requires At(file, off, Join(ps, i)) && |file| == off + |Join(ps, i)|
    ensures ReadEntries(file, off) == Some(es[i..])
    decreases |ps| - i
  {
    if i < |ps| {
      AtParts(file, off, ps[i], Join(ps, i + 1));
      EntriesRoundTrip(file, off + |ps[i]|, ps, es, i + 1);
      NextEntry(file, off, es[i], es[i + 1..]);
      DropOne(es, i);
    } else {
      assert es[i..] == [];
    }
  }

  /** Every packet reads back to the record's metadata and the frame after it. */
  lemma {:induction false} PacketRoundTrip(host: Host, x: Captured)
    requires CapturedOk(x)
    ensures ReadPacket(EntryOf(host, x)) == Some(FrameOf(host, x))
  {
    var c := ContentOf(host, x.record);
    ContentFits(host, x.record);
    HeaderRoundTrip(c, x.frame);
    assert (Header(c) + x.frame)[|Header(c)|..] == x.frame;
  }

  lemma {:induction false} PacketsRoundTrip(host: Host, xs: seq<Captured>, es: seq<Entry>, fs: seq<Frame>, i: nat)
    requires AllOk(xs) && i <= |xs| && es == EntriesOf(host, xs) && fs == FramesOf(host, xs)
    ensures ReadPackets(es, i) == Some(fs[i..])
    decreases |xs| - i
  {
    if i < |xs| {
      PacketRoundTrip(host, xs[i]);
      PacketsRoundTrip(host, xs, es, fs, i + 1);
      DropOne(fs, i);
    } else {
      assert fs[i..] == [];
    }
  }

  lemma {:induction false} FileEntries(file: Bytes, ps: seq<Bytes>, es: seq<Entry>)
    requires |ps| == |es| && forall k :: 0 <= k < |ps| ==> EntryOk(es[k]) && ps[k] == PutEntry(es[k])
    requires file == FileHeader() + Join(ps, 0)
    ensures IsCapture(file) && ReadEntries(file, 24) == Some(es)
  {
    Whole(file);
    AtParts(file, 0, FileHeader(), Join(ps, 0));
    HeaderIsCapture(file);
    EntriesRoundTrip(file, 24, ps, es, 0);
    assert es[0..] == es;
  }

  lemma {:induction false} Whole(file: Bytes)
    ensures At(file, 0, file)
  {
  }

  /** The file of these frames. */
  function FileOf(host: Host, xs: seq<Captured>): Bytes
    requires AllOk(xs)
  {
    FileHeader() + Join(RecordsOf(host, xs), 0)
  }

  /** A whole file gives back the list it was written from. */
  lemma {:induction false} CaptureRoundTrip(host: Host, xs: seq<Captured>)
    requires AllOk(xs)
    ensures ReadCapture(FileOf(host, xs)) == Some(FramesOf(host, xs))
  {
    FileEntries(FileOf(host, xs), RecordsOf(host, xs), EntriesOf(host, xs));
    PacketsRoundTrip(host, xs, EntriesOf(host, xs), FramesOf(host, xs), 0);
    assert FramesOf(host, xs)[0..] == FramesOf(host, xs);
  }

  lemma {:induction false} SameFrame(x: Captured)
    requires CapturedOk(x)
    ensures FrameOf(Python, x) == FrameOf(C, x) <==> Common(x.record)
    ensures Common(x.record) ==> EntryOf(Python, x) == EntryOf(C, x)
  {
    SameContentExactly(x.record);
    SameHeaderExactly(x.record);
  }

  lemma {:induction false} SameRecords(xs: seq<Captured>)
    requires AllOk(xs) && forall k :: 0 <= k < |xs| ==> Common(xs[k].record)
    ensures RecordsOf(Python, xs) == RecordsOf(C, xs)
  {
    forall k | 0 <= k < |xs|
      ensures RecordsOf(Python, xs)[k] == RecordsOf(C, xs)[k]
    {
      SameFrame(xs[k]);
    }
  }

  /** Both hosts write the same file exactly when every record is one they treat alike. */
  lemma {:induction false} SameFileExactly(xs: seq<Captured>)
    requires AllOk(xs)
    ensures FileOf(Python, xs) == FileOf(C, xs) <==> forall k :: 0 <= k < |xs| ==> Common(xs[k].record)
  {
    if FileOf(Python, xs) == FileOf(C, xs) {
      CaptureRoundTrip(Python, xs);
      CaptureRoundTrip(C, xs);
      forall k | 0 <= k < |xs|
        ensures Common(xs[k].record)
      {
        assert FramesOf(Python, xs)[k] == FramesOf(C, xs)[k];
        SameFrame(xs[k]);
      }
    } else if forall k :: 0 <= k < |xs| ==> Common(xs[k].record) {
      SameRecords(xs);
      assert false;
    }
  }

  // ---------------------------------------------------------------- the writers

  lemma {:induction false} JoinMore(ps: seq<Bytes>, more: seq<Bytes>, p: Bytes, i: nat)
    requires i <= |ps| && more == ps + [p]
    ensures Join(more, i) == Join(ps, i) + p
    decreases |ps| - i
  {
    if i < |ps| {
      JoinMore(ps, more, p, i + 1);
      Assoc(ps[i], Join(ps, i + 1), p);
    } else {
      assert Join(more, i + 1) == [];
      Nil(p);
    }
  }

  lemma {:induction false} RecordsGrow(host: Host, xs: seq<Captured>, more: seq<Captured>, x: Captured)
    requires AllOk(xs) && CapturedOk(x) && more == xs + [x]
    ensures AllOk(more) && RecordsOf(host, more) == RecordsOf(host, xs) + [PutEntry(EntryOf(host, x))]
  {
    forall k | 0 <= k < |more|
      ensures CapturedOk(more[k])
    {
      assert k < |xs| ==> more[k] == xs[k];
    }
    var a, b := RecordsOf(host, more), RecordsOf(host, xs) + [PutEntry(EntryOf(host, x))];
    assert forall k :: 0 <= k < |xs| ==> a[k] == b[k];
    assert a[|xs|] == b[|xs|];
  }

  lemma {:induction false} FileGrows(host: Host, xs: seq<Captured>, more: seq<Captured>, x: Captured, record: Bytes)
    requires AllOk(xs) && CapturedOk(x) && more == xs + [x] && record == PutEntry(EntryOf(host, x))
    ensures AllOk(more) && FileOf(host, more) == FileOf(host, xs) + record
  {
    RecordsGrow(host, xs, more, x);
    JoinMore(RecordsOf(host, xs), RecordsOf(host, more), record, 0);
    Assoc(FileHeader(), Join(RecordsOf(host, xs), 0), record);
  }

  lemma {:induction false} EmptyFile(host: Host)
    ensures FileOf(host, []) == FileHeader()
  {
    assert RecordsOf(host, []) == [];
    Nil(FileHeader());
  }

  ghost predicate Holds(file: Bytes, host: Host, xs: seq<Captured>) {
    AllOk(xs) && file == FileOf(host, xs)
  }

  /** Python's two writes: the record header packed at once, then the packet. */
  method WritePacket(file: Bytes, x: Captured, ghost before: seq<Captured>) returns (longer: Bytes)
    requires CapturedOk(x) && Holds(file, Python, before)
    ensures Holds(longer, Python, before + [x])
  {
    var header := WritePython(x.record);
    ContentFits(Python, x.record);
    var packet := header + x.frame;
    var record := PutLe32(x.seconds) + PutLe32(x.micros) + PutLe32(|packet|) + PutLe32(|packet|);
    FileGrows(Python, before, before + [x], x, record + packet);
    Assoc(file, record, packet);
    longer := file + record;
    longer := longer + packet;
  }

  /** pcap_writer_open: seven writes. */
  method OpenC() returns (file: Bytes)
    ensures Holds(file, C, [])
  {
    EmptyFile(C);
    file := PutLe32(0xA1B2_C3D4);
    file := file + PutLe16(2);
    file := file + PutLe16(4);
    file := file + PutLe32(0);
    file := file + PutLe32(0);
    file := file + PutLe32(65535);
    file := file + PutLe32(127);
  }

  lemma {:induction false} SixParts(file: Bytes, a: Bytes, b: Bytes, c: Bytes, d: Bytes, h: Bytes, f: Bytes)
    ensures file + ((((a + b) + c) + d) + (h + f)) == (((((file + a) + b) + c) + d) + h) + f
  {
    Assoc(file, ((a + b) + c) + d, h + f);
    Assoc(file, (a + b) + c, d);
    Assoc(file, a + b, c);
    Assoc(file, a, b);
    Assoc(file + (((a + b) + c) + d), h, f);
  }

  lemma {:induction false} FrameWritten(file: Bytes, x: Captured, header: Bytes, total: nat, longer: Bytes)
    requires CapturedOk(x) && header == HeaderOf(C, x.record) && total == |header| + |x.frame| < U32_LIMIT
    requires var len := PutLe32(total);
             longer == (((((file + PutLe32(x.seconds)) + PutLe32(x.micros)) + len) + len) + header) + x.frame
    ensures longer == file + PutEntry(EntryOf(C, x))
  {
    var len := PutLe32(total);
    var record := (((PutLe32(x.seconds) + PutLe32(x.micros)) + len) + len) + (header + x.frame);
    SixParts(file, PutLe32(x.seconds), PutLe32(x.micros), len, len, header, x.frame);
    RecordIs(x, header, len, record);
  }

  lemma {:induction false} RecordIs(x: Captured, header: Bytes, len: Bytes, record: Bytes)
    requires CapturedOk(x) && header == HeaderOf(C, x.record)
    requires |header| + |x.frame| < U32_LIMIT && len == PutLe32(|header| + |x.frame|)
    requires record == (((PutLe32(x.seconds) + PutLe32(x.micros)) + len) + len) + (header + x.frame)
    ensures record == PutEntry(EntryOf(C, x))
  {
    assert EntryOf(C, x).packet == header + x.frame;
  }

  /** In 32 bits, as in C. */
  method PacketLength(header: nat, frame: nat) returns (n: nat)
    requires header <= 112 && frame < 0x1_0000
    ensures n == header + frame
  {
    n := (header + frame) % U32_LIMIT;
  }

  /** pcap_writer_write_frame: an empty frame is refused; otherwise six writes, with the length of
      the packet in 32 bits. */
  method WriteFrame(file: Bytes, x: Captured, ghost before: seq<Captured>) returns (ok: bool, longer: Bytes)
    requires CapturedOk(x) && Holds(file, C, before)
    ensures ok <==> x.frame != []
    ensures if ok then Holds(longer, C, before + [x]) else longer == file
  {
    if |x.frame| == 0 {
      return false, file;
    }
    var header := WriteC(x.record);
    longer := EmitFrame(file, x, header, before);
    ok := true;
  }

  method EmitFrame(file: Bytes, x: Captured, header: Bytes, ghost before: seq<Captured>) returns (longer: Bytes)
    requires CapturedOk(x) && Holds(file, C, before) && header == HeaderOf(C, x.record) && |header| <= 112
    ensures Holds(longer, C, before + [x])
  {
    var total := PacketLength(|header|, |x.frame|);
    var sec, usec, len := PutLe32(x.seconds), PutLe32(x.micros), PutLe32(total);
    longer := WriteSix(file, sec, usec, len, len, header, x.frame);
    FrameWritten(file, x, header, total, longer);
    FileGrows(C, before, before + [x], x, PutEntry(EntryOf(C, x)));
  }

  method WriteSix(file: Bytes, a: Bytes, b: Bytes, c: Bytes, d: Bytes, h: Bytes, f: Bytes) returns (longer: Bytes)
    ensures longer == (((((file + a) + b) + c) + d) + h) + f
  {
    longer := file + a;
    longer := longer + b;
    longer := longer + c;
    longer := longer + d;
    longer := longer + h;
    longer := longer + f;
  }

  // ---------------------------------------------------------------- the capture loops

  /** The shortest frame that is written: Python skips those under ten octets, C the empty ones. */
  function Least(host: Host): nat {
    match host
    case Python => 10
    case C => 1
  }

  /** What a capture loop writes of the first n frames. */
  function Written(host: Host, xs: seq<Captured>, n: nat): (kept: seq<Captured>)
    requires n <= |xs|
    ensures AllOk(xs) ==> AllOk(kept)
  {
    if n == 0 then []
    else Written(host, xs, n - 1) + (if |xs[n - 1].frame| >= Least(host) then [xs[n - 1]] else [])
  }

  /** Python's capture loop. Read back, the file gives exactly the frames of at least ten octets, in
      order, with their times and metadata. */
  method CapturePython(xs: seq<Captured>) returns (file: Bytes, written: nat)
    requires AllOk(xs)
    ensures var kept := Written(Python, xs, |xs|);
            && written == |kept| && Holds(file, Python, kept)
            && ReadCapture(file) == Some(FramesOf(Python, kept))
  {
    file, written := FileHeader(), 0;
    EmptyFile(Python);
    for n := 0 to |xs|
      invariant written == |Written(Python, xs, n)| && Holds(file, Python, Written(Python, xs, n))
    {
      ghost var kept := Written(Python, xs, n);
      Nil(kept);
      if |xs[n].frame| >= 10 {
        file := WritePacket(file, xs[n], kept);
        written := written + 1;
      }
    }
    CaptureRoundTrip(Python, Written(Python, xs, |xs|));
  }

  /** The two capture loops of C, of which one stops when a frame is refused and the other goes on:
      both skip empty frames first, so none ever is. */
  method CaptureC(xs: seq<Captured>) returns (file: Bytes, refused: nat)
    requires AllOk(xs)
    ensures refused == 0
    ensures var kept := Written(C, xs, |xs|);
            Holds(file, C, kept) && ReadCapture(file) == Some(FramesOf(C, kept))
  {
    file := OpenC();
    refused := 0;
    for n := 0 to |xs|
      invariant refused == 0 && Holds(file, C, Written(C, xs, n))
    {
      ghost var kept := Written(C, xs, n);
      Nil(kept);
      if |xs[n].frame| == 0 {
        continue;
      }
      var ok;
      ok, file := WriteFrame(file, xs[n], kept);
      refused := refused + (if ok then 0 else 1);
    }
    CaptureRoundTrip(C, Written(C, xs, |xs|));
  }

  /** Both loops write the frame alike, or neither does. */
  predicate Alike(x: Captured) {
    x.frame == [] || (|x.frame| >= 10 && Common(x.record))
  }

  predicate Between(x: Captured) {
    1 <= |x.frame| <= 9
  }

  /** Python writes what C writes, less the frames of one to nine octets. */
  lemma {:induction false} PythonWritesFewer(xs: seq<Captured>, n: nat)
    requires n <= |xs|
    ensures |Written(Python, xs, n)| <= |Written(C, xs, n)|
    ensures |Written(Python, xs, n)| == |Written(C, xs, n)| <==> forall k :: 0 <= k < n ==> !Between(xs[k])
    ensures |Written(Python, xs, n)| == |Written(C, xs, n)| ==> Written(Python, xs, n) == Written(C, xs, n)
  {
    if n > 0 {
      PythonWritesFewer(xs, n - 1);
    }
  }

  ghost predicate AllCommon(xs: seq<Captured>) {
    forall k :: 0 <= k < |xs| ==> Common(xs[k].record)
  }

  lemma {:induction false} CommonWritten(xs: seq<Captured>, n: nat)
    requires n <= |xs|
    ensures AllCommon(Written(Python, xs, n)) <==>
            forall k :: 0 <= k < n && |xs[k].frame| >= 10 ==> Common(xs[k].record)
  {
    if n > 0 {
      CommonWritten(xs, n - 1);
      CommonOneMore(Written(Python, xs, n - 1), xs[n - 1]);
      Nil(Written(Python, xs, n - 1));
    }
  }

  lemma {:induction false} CommonOneMore(xs: seq<Captured>, x: Captured)
    ensures AllCommon(xs + [x]) <==> AllCommon(xs) && Common(x.record)
  {
    if AllCommon(xs + [x]) {
      assert (xs + [x])[|xs|] == x;
      assert forall k :: 0 <= k < |xs| ==> (xs + [x])[k] == xs[k];
    }
  }

  /** The two capture loops write the same file of a list of receptions if and only if no frame has
      one to nine octets and every longer one has a record that both hosts treat alike. */
  lemma {:induction false} SameCaptureExactly(xs: seq<Captured>)
    requires AllOk(xs)
    ensures FileOf(Python, Written(Python, xs, |xs|)) == FileOf(C, Written(C, xs, |xs|)) <==>
            forall k :: 0 <= k < |xs| ==> Alike(xs[k])
  {
    PythonWritesFewer(xs, |xs|);
    CommonWritten(xs, |xs|);
    FilesAgree(Written(Python, xs, |xs|), Written(C, xs, |xs|));
    AlikeMeans(xs);
  }

  lemma {:induction false} AlikeMeans(xs: seq<Captured>)
    ensures (forall k :: 0 <= k < |xs| ==> Alike(xs[k])) <==>
            && (forall k :: 0 <= k < |xs| ==> !Between(xs[k]))
            && (forall k :: 0 <= k < |xs| && |xs[k].frame| >= 10 ==> Common(xs[k].record))
  {
    if forall k :: 0 <= k < |xs| ==> Alike(xs[k]) {
      forall k | 0 <= k < |xs|
        ensures !Between(xs[k]) && (|xs[k].frame| >= 10 ==> Common(xs[k].record))
      {
        assert Alike(xs[k]);
      }
    }
  }

  lemma {:induction false} FilesAgree(p: seq<Captured>, c: seq<Captured>)
    requires AllOk(p) && AllOk(c) && (|p| == |c| ==> p == c)
    ensures FileOf(Python, p) == FileOf(C, c) <==> |p| == |c| && AllCommon(p)
  {
    if |p| == |c| {
      SameFileExactly(p);
    } else {
      CaptureRoundTrip(Python, p);
      CaptureRoundTrip(C, c);
    }
  }
}
