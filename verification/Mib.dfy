/** Counter requests and replies (c/mt7921_radio.c, research/mt7925_mib_characterize.py). An MT7925
    reply has a prefix of unknown length, so entries are found by scanning. */
module Mib {
  import opened Wire
  import opened RxDecode

  const MAX_OFFSETS := 16

  predicate Distinct(offsets: seq<nat>) {
    forall i, j :: 0 <= j < i < |offsets| ==> offsets[i] != offsets[j]
  }

  predicate ValidOffsets(chip: Chip, offsets: seq<nat>) {
    && 1 <= |offsets| <= MAX_OFFSETS && (chip.MT7921? ==> |offsets| == 1)
    && (forall i :: 0 <= i < |offsets| ==> offsets[i] < 0x200) && Distinct(offsets)
  }

  /** valid_offsets: each offset is in range and none of those before it. */
  method CheckOffsets(chip: Chip, offsets: seq<nat>) returns (ok: bool)
    ensures ok <==> ValidOffsets(chip, offsets)
  {
    if |offsets| == 0 || |offsets| > 16 || (chip.MT7921? && |offsets| != 1) {
      return false;
    }
    for i := 0 to |offsets|
      invariant forall k :: 0 <= k < i ==> offsets[k] <= 511
      invariant forall k, j :: 0 <= j < k < i ==> offsets[k] != offsets[j]
    {
      if offsets[i] > 511 {
        return false;
      }
      for j := 0 to i
        invariant forall k :: 0 <= k < j ==> offsets[i] != offsets[k]
      {
        if offsets[i] == offsets[j] {
          return false;
        }
      }
    }
    ok := true;
  }

  // ---------------------------------------------------------------- requests

  /** Tag 0, length 8, offset: Python packs "<HHI". */
  function PythonEntry(offset: nat): (b: Bytes)
    requires offset <= 511
    ensures |b| == 8
  {
    PutLe16(0) + PutLe16(8) + PutLe32(offset)
  }

  function PythonEntries(offsets: seq<nat>): (b: Bytes)
    requires forall i :: 0 <= i < |offsets| ==> offsets[i] <= 511
    ensures |b| == 8 * |offsets|
  {
    if offsets == [] then []
    else PythonEntries(offsets[..|offsets| - 1]) + PythonEntry(offsets[|offsets| - 1])
  }

  /** build_request. */
  function PythonRequest(band: Byte, offsets: seq<nat>): Bytes
    requires forall i :: 0 <= i < |offsets| ==> offsets[i] <= 511
  {
    [band, 0, 0, 0] + PythonEntries(offsets)
  }

  /** The MT7921 request: sixteen octets with the one offset at 4. */
  function SingleRequest(band: Byte, offset: nat): Bytes
    requires offset <= 511
  {
    [band, 0, 0, 0] + PutLe32(offset) + Zeros(8)
  }

  function CRequest(chip: Chip, band: Byte, offsets: seq<nat>): Bytes
    requires ValidOffsets(chip, offsets)
  {
    if chip.MT7921? then SingleRequest(band, offsets[0]) else PythonRequest(band, offsets)
  }

  method Put32(out: array<Byte>, at: nat, v: nat)
    requires at + 4 <= out.Length && v < U32_LIMIT
    modifies out
    ensures out[at..at + 4] == PutLe32(v)
    ensures forall k :: 0 <= k < out.Length && !(at <= k < at + 4) ==> out[k] == old(out[k])
  {
    out[at], out[at + 1] := v % 256, v / 256 % 256;
    out[at + 2], out[at + 3] := v / 256 / 256 % 256, v / 256 / 256 / 256 % 256;
    FourOctets(v);
    assert out[at..at + 4] == [v % 256, v / 256 % 256, v / 256 / 256 % 256, v / 256 / 256 / 256 % 256];
  }

  lemma {:induction false} FourOctets(v: nat)
    requires v < U32_LIMIT
    ensures PutLe32(v) == [v % 256, v / 256 % 256, v / 256 / 256 % 256, v / 256 / 256 / 256 % 256]
  {
    var a, b, c := v / 256, v / 256 / 256, v / 256 / 256 / 256;
    assert PutLe(c, 1) == [c % 256];
    assert PutLe(b, 2) == [b % 256, c % 256];
    assert PutLe(a, 3) == [a % 256, b % 256, c % 256];
  }

  /** One entry over zeroed octets. */
  method PutEntry(out: array<Byte>, at: nat, offset: nat)
    requires at + 8 <= out.Length && offset <= 511
    requires forall k :: at <= k < at + 8 ==> out[k] == 0
    modifies out
    ensures out[at..at + 8] == PythonEntry(offset)
    ensures forall k :: 0 <= k < out.Length && !(at <= k < at + 8) ==> out[k] == old(out[k])
  {
    out[at + 2] := 8;
    Put32(out, at + 4, offset);
    assert out[at..at + 8] == out[at..at + 4] + out[at + 4..at + 8];
    assert out[at..at + 4] == [0, 0, 8, 0] == PutLe16(0) + PutLe16(8);
  }

  /** mt_mib_request: the request's octets, or nothing touched. */
  method Request(chip: Chip, band: Byte, offsets: seq<nat>, out: array<Byte>) returns (length: Option<nat>)
    modifies out
    ensures length.Some? <==> band <= 1 && ValidOffsets(chip, offsets) &&
                              |CRequest(chip, band, offsets)| <= out.Length
    ensures length.Some? ==>
              && length.value == |CRequest(chip, band, offsets)|
              && out[..length.value] == CRequest(chip, band, offsets)
              && out[length.value..] == old(out[length.value..])
    ensures length.None? ==> out[..] == old(out[..])
  {
    var valid := CheckOffsets(chip, offsets);
    if band > 1 || !valid {
      return None;
    }
    var len := if chip.MT7921? then 16 else 4 + 8 * |offsets|;
    if out.Length < len {
      return None;
    }
    Clear(out, len);
    out[0] := band;
    if chip.MT7921? {
      Put32(out, 4, offsets[0]);
      Sixteen(out[..], band, offsets[0]);
    } else {
      PutEntries(out, band, offsets);
    }
    length := Some(len);
  }

  lemma {:induction false} Sixteen(out: Bytes, band: Byte, offset: nat)
    requires |out| >= 16 && offset <= 511 && out[0] == band && out[1] == 0 && out[2] == 0 && out[3] == 0
    requires out[4..8] == PutLe32(offset) && forall k :: 8 <= k < 16 ==> out[k] == 0
    ensures out[..16] == SingleRequest(band, offset)
  {
    assert out[..16] == out[0..4] + out[4..8] + out[8..16];
    assert out[0..4] == [band, 0, 0, 0];
    assert out[8..16] == Zeros(8);
  }

  method Clear(out: array<Byte>, len: nat)
    requires len <= out.Length
    modifies out
    ensures forall k :: 0 <= k < len ==> out[k] == 0
    ensures forall k :: len <= k < out.Length ==> out[k] == old(out[k])
  {
    for i := 0 to len
      invariant forall k :: 0 <= k < i ==> out[k] == 0
      invariant forall k :: i <= k < out.Length ==> out[k] == old(out[k])
    {
      out[i] := 0;
    }
  }

  lemma {:induction false} SliceJoin(s: Bytes, at: nat, n: nat)
    requires at + n <= |s|
    ensures s[..at + n] == s[..at] + s[at..at + n]
  {
  }

  method PutEntries(out: array<Byte>, band: Byte, offsets: seq<nat>)
    requires forall i :: 0 <= i < |offsets| ==> offsets[i] <= 511
    requires 4 + 8 * |offsets| <= out.Length && out[0] == band
    requires forall k :: 0 < k < 4 + 8 * |offsets| ==> out[k] == 0
    modifies out
    ensures out[..4 + 8 * |offsets|] == PythonRequest(band, offsets)
    ensures forall k :: 4 + 8 * |offsets| <= k < out.Length ==> out[k] == old(out[k])
  {
    for i := 0 to |offsets|
      invariant out[..4 + 8 * i] == PythonRequest(band, offsets[..i])
      invariant forall k :: 4 + 8 * i <= k < 4 + 8 * |offsets| ==> out[k] == 0
      invariant forall k :: 4 + 8 * |offsets| <= k < out.Length ==> out[k] == old(out[k])
    {
      ghost var before := out[..4 + 8 * i];
      PutEntry(out, 4 + 8 * i, offsets[i]);
      assert offsets[..i + 1][..i] == offsets[..i];
      assert out[..4 + 8 * i] == before;
      SliceJoin(out[..], 4 + 8 * i, 8);
      Assoc([band, 0, 0, 0], PythonEntries(offsets[..i]), PythonEntry(offsets[i]));
    }
    assert offsets[..|offsets|] == offsets;
  }

  // ---------------------------------------------------------------- replies

  /** An entry for `offset`, or something that looks like one, at `at`. */
  predicate Match(body: Bytes, offset: nat, at: nat) {
    && at + 8 <= |body| && body[at] == 0 && body[at + 1] == 0 && Le32(body, at + 4) == offset
    && (Le16(body, at + 2) == 8 || Le16(body, at + 2) == 16)
  }

  /** The even positions below 2 * n that match, in order. */
  function Matches(body: Bytes, offset: nat, n: nat): seq<nat> {
    if n == 0 then []
    else Matches(body, offset, n - 1) + (if Match(body, offset, 2 * (n - 1)) then [2 * (n - 1)] else [])
  }

  /** Positions the scan visits: even, with room for an entry header. */
  function Visits(body: Bytes): nat {
    if |body| < 8 then 0 else (|body| - 8) / 2 + 1
  }

  lemma {:induction false} VisitsMeaning(body: Bytes, n: nat)
    ensures n < Visits(body) <==> 2 * n + 8 <= |body|
  {
  }

  /** Exactly one even-aligned match, with its value in full. */
  predicate Unique(body: Bytes, offset: nat, n: nat) {
    var m := Matches(body, offset, n);
    |m| == 1 && m[0] + 16 <= |body|
  }

  lemma {:induction false} MatchesMeaning(body: Bytes, offset: nat, n: nat, at: nat)
    ensures at in Matches(body, offset, n) <==> at % 2 == 0 && at < 2 * n && Match(body, offset, at)
  {
    if n > 0 {
      MatchesMeaning(body, offset, n - 1, at);
    }
  }

  lemma {:induction false} MatchesGrow(body: Bytes, offset: nat, m: nat, n: nat)
    requires m <= n
    ensures Matches(body, offset, m) <= Matches(body, offset, n)
    decreases n
  {
    if m < n {
      MatchesGrow(body, offset, m, n - 1);
    }
  }

  predicate AllUnique(body: Bytes, offsets: seq<nat>) {
    forall i :: 0 <= i < |offsets| ==> Unique(body, offsets[i], Visits(body))
  }

  predicate Succeeds(chip: Chip, body: Bytes, offsets: seq<nat>) {
    && ValidOffsets(chip, offsets)
    && if chip.MT7921? then |body| >= 32
       else AllUnique(body, offsets)
  }

  function ValueOf(chip: Chip, body: Bytes, offset: nat): nat
    requires if chip.MT7921? then |body| >= 32 else Unique(body, offset, Visits(body))
  {
    if chip.MT7921? then Le32(body, 28) else Le64(body, Matches(body, offset, Visits(body))[0] + 8)
  }

  /** After n visits: at most one match each, all full, the found ones parsed. */
  ghost predicate Scanned(body: Bytes, offset: nat, n: nat, found: bool, parsed: nat) {
    var m := Matches(body, offset, n);
    && |m| == (if found then 1 else 0)
    && (found ==> m[0] + 16 <= |body| && parsed == Le64(body, m[0] + 8))
  }

  lemma {:induction false} Ambiguous(body: Bytes, offset: nat, n: nat, found: bool, parsed: nat)
    requires Scanned(body, offset, n, found, parsed) && n < Visits(body) && Match(body, offset, 2 * n)
    requires |body| - 2 * n < 16 || found
    ensures !Unique(body, offset, Visits(body))
  {
    MatchesGrow(body, offset, n + 1, Visits(body));
  }

  /** What one position does for one offset. */
  method VisitOne(body: Bytes, offset: nat, at: nat, ghost n: nat, found: bool, parsed: nat)
    returns (ok: bool, found': bool, parsed': nat)
    requires at == 2 * n && n < Visits(body) && Scanned(body, offset, n, found, parsed)
    ensures !ok ==> !Unique(body, offset, Visits(body))
    ensures ok ==> Scanned(body, offset, n + 1, found', parsed')
  {
    ok, found', parsed' := true, found, parsed;
    if body[at] == 0 && body[at + 1] == 0 && Le32(body, at + 4) == offset &&
       (Le16(body, at + 2) == 8 || Le16(body, at + 2) == 16)
    {
      if |body| - at < 16 || found {
        Ambiguous(body, offset, n, found, parsed);
        ok := false;
      } else {
        found', parsed' := true, Le64(body, at + 8);
      }
    }
  }

  /** The inner loop over the requested offsets. */
  method Visit(body: Bytes, offsets: seq<nat>, at: nat, ghost n: nat, found: seq<bool>, parsed: seq<nat>)
    returns (ok: bool, found': seq<bool>, parsed': seq<nat>)
    requires at == 2 * n && n < Visits(body) && AllScanned(body, offsets, n, found, parsed)
    ensures !ok ==> !AllUnique(body, offsets)
    ensures ok ==> AllScanned(body, offsets, n + 1, found', parsed')
  {
    found', parsed' := [], [];
    for i := 0 to |offsets|
      invariant |found'| == |parsed'| == i
      invariant forall j :: 0 <= j < i ==> Scanned(body, offsets[j], n + 1, found'[j], parsed'[j])
    {
      var f, p;
      ok, f, p := VisitOne(body, offsets[i], at, n, found[i], parsed[i]);
      if !ok {
        assert !Unique(body, offsets[i], Visits(body));
        return;
      }
      found', parsed' := found' + [f], parsed' + [p];
    }
    ok := true;
  }

  /** mt_mib_parse: every requested counter from its one entry, or no output at all. */
  method Parse(chip: Chip, body: Bytes, offsets: seq<nat>, values: array<nat>) returns (ok: bool)
    requires |offsets| <= values.Length
    modifies values
    ensures ok <==> Succeeds(chip, body, offsets)
    ensures ok ==> forall i :: 0 <= i < |offsets| ==> values[i] == ValueOf(chip, body, offsets[i])
    ensures ok ==> values[|offsets|..] == old(values[|offsets|..])
    ensures !ok ==> values[..] == old(values[..])
  {
    var valid := CheckOffsets(chip, offsets);
    if !valid {
      return false;
    }
    var parsed: seq<nat>;
    if chip.MT7921? {
      if |body| < 32 {
        return false;
      }
      parsed := [Le32(body, 28)];
    } else {
      ok, parsed := Scan(body, offsets);
      if !ok {
        return false;
      }
    }
    for i := 0 to |offsets|
      invariant forall j :: 0 <= j < i ==> values[j] == parsed[j]
      invariant forall j :: i <= j < values.Length ==> values[j] == old(values[j])
    {
      values[i] := parsed[i];
    }
    ok := true;
  }

  ghost predicate AllScanned(body: Bytes, offsets: seq<nat>, n: nat, found: seq<bool>, parsed: seq<nat>) {
    |found| == |parsed| == |offsets| &&
    forall i :: 0 <= i < |offsets| ==> Scanned(body, offsets[i], n, found[i], parsed[i])
  }

  lemma {:induction false} NothingScanned(body: Bytes, offsets: seq<nat>, found: seq<bool>, parsed: seq<nat>)
    requires |found| == |parsed| == |offsets| && forall i :: 0 <= i < |found| ==> !found[i]
    ensures AllScanned(body, offsets, 0, found, parsed)
  {
  }

  /** The loop over the positions. */
  method ScanAll(body: Bytes, offsets: seq<nat>) returns (ok: bool, found: seq<bool>, parsed: seq<nat>)
    ensures !ok ==> !AllUnique(body, offsets)
    ensures ok ==> AllScanned(body, offsets, Visits(body), found, parsed)
  {
    ok, found, parsed := true, seq(|offsets|, _ => false), seq(|offsets|, _ => 0);
    NothingScanned(body, offsets, found, parsed);
    var at := 0;
    ghost var n, visits := 0, Visits(body);
    VisitsMeaning(body, n);
    while at <= |body| && |body| - at >= 8
      invariant ok && at == 2 * n && n <= visits && AllScanned(body, offsets, n, found, parsed)
      invariant n < visits <==> at + 8 <= |body|
    {
      ok, found, parsed := Visit(body, offsets, at, n, found, parsed);
      if !ok {
        return;
      }
      at, n := at + 2, n + 1;
      VisitsMeaning(body, n);
    }
  }

  method Scan(body: Bytes, offsets: seq<nat>) returns (ok: bool, parsed: seq<nat>)
    ensures ok <==> AllUnique(body, offsets)
    ensures ok ==> |parsed| == |offsets| &&
                   forall i :: 0 <= i < |offsets| ==> parsed[i] == ValueOf(MT7925, body, offsets[i])
  {
    var found;
    ok, found, parsed := ScanAll(body, offsets);
    if ok {
      ok := AllFound(body, offsets, found, parsed);
    }
  }

  /** The last loop: every offset was found. */
  method AllFound(body: Bytes, offsets: seq<nat>, found: seq<bool>, ghost parsed: seq<nat>) returns (ok: bool)
    requires AllScanned(body, offsets, Visits(body), found, parsed)
    ensures ok <==> AllUnique(body, offsets)
    ensures ok ==> forall i :: 0 <= i < |offsets| ==> parsed[i] == ValueOf(MT7925, body, offsets[i])
  {
    for i := 0 to |offsets|
      invariant forall j :: 0 <= j < i ==>
                  Unique(body, offsets[j], Visits(body)) && parsed[j] == ValueOf(MT7925, body, offsets[j])
    {
      assert Scanned(body, offsets[i], Visits(body), found[i], parsed[i]);
      if !found[i] {
        assert !Unique(body, offsets[i], Visits(body));
        return false;
      }
    }
    ok := true;
  }

  // ---------------------------------------------------------------- genuine entries

  /** A genuine entry at any even position is the one a successful parse reads: a prefix of even
      length, or a value that looks like an entry, can make it fail but never mislead it. */
  lemma {:induction false} GenuineOrFail(body: Bytes, offsets: seq<nat>, i: nat, at: nat)
    requires Succeeds(MT7925, body, offsets) && i < |offsets|
    requires at % 2 == 0 && Match(body, offsets[i], at)
    ensures at + 16 <= |body| && ValueOf(MT7925, body, offsets[i]) == Le64(body, at + 8)
  {
    MatchesMeaning(body, offsets[i], Visits(body), at);
  }

  // ---------------------------------------------------------------- Python's scan

  /** What parse_counter takes for an entry: the tag is not looked at. */
  predicate PythonMatch(body: Bytes, offset: nat, at: nat) {
    && at + 16 <= |body| && Le32(body, at + 4) == offset
    && (Le16(body, at + 2) == 8 || Le16(body, at + 2) == 16)
  }

  /** The number of positions of `range(0, max(0, len(body) - 12), 2)`. */
  function PythonVisits(body: Bytes): nat {
    if |body| <= 12 then 0 else (|body| - 11) / 2
  }

  /** The first such position from 2 * n on, or the end of the range. */
  function FirstEntry(body: Bytes, offset: nat, n: nat): (at: nat)
    requires n <= PythonVisits(body)
    ensures at % 2 == 0 && 2 * n <= at <= 2 * PythonVisits(body)
    ensures at < 2 * PythonVisits(body) ==> PythonMatch(body, offset, at)
    ensures forall q :: 2 * n <= q < at && q % 2 == 0 ==> !PythonMatch(body, offset, q)
    decreases PythonVisits(body) - n
  {
    if n == PythonVisits(body) || PythonMatch(body, offset, 2 * n) then 2 * n
    else FirstEntry(body, offset, n + 1)
  }

  function PythonCounter(body: Bytes, offset: nat): Option<nat> {
    var at := FirstEntry(body, offset, 0);
    if at < 2 * PythonVisits(body) then Some(Le64(body, at + 8)) else None
  }

  method ParseCounter(body: Bytes, offset: nat) returns (value: Option<nat>)
    ensures value == PythonCounter(body, offset)
  {
    for n := 0 to PythonVisits(body)
      invariant FirstEntry(body, offset, 0) == FirstEntry(body, offset, n)
    {
      var at := 2 * n;
      var length, echoed := Le16(body, at + 2), Le32(body, at + 4);
      if echoed == offset && length in {8, 16} && at + 16 <= |body| {
        return Some(Le64(body, at + 8));
      }
    }
    value := None;
  }

  /** Like an entry, but with a tag that C would not accept. */
  predicate ForeignTag(body: Bytes, offset: nat, at: nat) {
    PythonMatch(body, offset, at) && !Match(body, offset, at)
  }

  /** Where C reads the counter. */
  function EntryPosition(body: Bytes, offset: nat): (at: nat)
    requires Unique(body, offset, Visits(body))
  {
    Matches(body, offset, Visits(body))[0]
  }

  lemma {:induction false} OnlyMatch(body: Bytes, offset: nat, q: nat)
    requires Unique(body, offset, Visits(body)) && q % 2 == 0 && Match(body, offset, q)
    ensures q == EntryPosition(body, offset)
  {
    MatchesMeaning(body, offset, Visits(body), q);
  }

  /** Where C reads a counter, Python reads the same entry if and only if none with another tag comes
      before it, and otherwise the first of those; so it returns the same value if and only if there
      is none or the first carries that value. */
  lemma {:induction false} PythonReads(body: Bytes, offset: nat)
    requires Unique(body, offset, Visits(body))
    ensures var p, q := EntryPosition(body, offset), FirstEntry(body, offset, 0);
            && q <= p && (q < p ==> ForeignTag(body, offset, q))
            && (q == p <==> forall k :: 0 <= k < p && k % 2 == 0 ==> !ForeignTag(body, offset, k))
            && PythonCounter(body, offset) == Some(Le64(body, q + 8))
            && (PythonCounter(body, offset) == Some(ValueOf(MT7925, body, offset)) <==>
                (forall k :: 0 <= k < p && k % 2 == 0 ==> !ForeignTag(body, offset, k)) ||
                Le64(body, q + 8) == Le64(body, p + 8))
  {
    var p, q := EntryPosition(body, offset), FirstEntry(body, offset, 0);
    assert p in Matches(body, offset, Visits(body));
    MatchesMeaning(body, offset, Visits(body), p);
    assert PythonMatch(body, offset, p) && p < 2 * PythonVisits(body);
    assert q <= p;
    if q < p {
      if Match(body, offset, q) {
        OnlyMatch(body, offset, q);
      }
      assert ForeignTag(body, offset, q);
    }
  }

  // ---------------------------------------------------------------- replies built and read back

  /** MT7921's reply: the counter after 28 octets, and whatever follows. */
  lemma {:induction false} SingleRead(head: Bytes, value: nat, after: Bytes, offsets: seq<nat>)
    requires |head| == 28 && value < U32_LIMIT
    ensures var body := head + (PutLe32(value) + after);
            && Succeeds(MT7921, body, offsets) == ValidOffsets(MT7921, offsets)
            && forall offset :: ValueOf(MT7921, body, offset) == value
  {
    var body, word := head + (PutLe32(value) + after), PutLe32(value);
    assert body[28..32] == word[0..4];
    LeAgree(body, 28, word, 0, 4);
  }

  /** What the firmware sends for one counter. */
  function ReplyEntry(offset: nat, size: nat, value: Bytes): (b: Bytes)
    requires offset <= 511 && (size == 8 || size == 16) && |value| == 8
    ensures |b| == 16
  {
    [0, 0] + PutLe16(size) + PutLe32(offset) + value
  }

  function ReplyEntries(offsets: seq<nat>, size: nat, values: seq<Bytes>, i: nat): (b: Bytes)
    requires |values| == |offsets| && (size == 8 || size == 16) && i <= |offsets|
    requires forall k :: 0 <= k < |offsets| ==> offsets[k] <= 511 && |values[k]| == 8
    ensures |b| == 16 * (|offsets| - i)
    decreases |offsets| - i
  {
    if i == |offsets| then []
    else ReplyEntry(offsets[i], size, values[i]) + ReplyEntries(offsets, size, values, i + 1)
  }

  /** At this position lies a whole entry with this value. */
  ghost predicate HoldsEntry(body: Bytes, at: nat, offset: nat, value: Bytes) {
    Match(body, offset, at) && at + 16 <= |body| && |value| == 8 && Le64(body, at + 8) == Le64(value, 0)
  }

  lemma {:induction false} EntryOctets(offset: nat, size: nat, value: Bytes)
    requires offset <= 511 && (size == 8 || size == 16) && |value| == 8
    ensures var e := ReplyEntry(offset, size, value);
            && e[0] == 0 && e[1] == 0 && e[2] == size && e[3] == 0
            && e[4..8] == PutLe32(offset)[0..4] && e[8..16] == value[0..8]
  {
  }

  lemma {:induction false} EntryAt(body: Bytes, at: nat, offset: nat, size: nat, value: Bytes)
    requires offset <= 511 && (size == 8 || size == 16) && |value| == 8
    requires at + 16 <= |body| && body[at..at + 16] == ReplyEntry(offset, size, value)
    ensures HoldsEntry(body, at, offset, value)
  {
    var e := body[at..at + 16];
    EntryOctets(offset, size, value);
    assert body[at] == e[0] && body[at + 1] == e[1] && body[at + 2] == e[2] && body[at + 3] == e[3];
    SliceOfSlice(body, at, 16, 4, 8);
    SliceOfSlice(body, at, 16, 8, 16);
    LeAgree(body, at + 4, PutLe32(offset), 0, 4);
    LeAgree(body, at + 8, value, 0, 8);
  }

  lemma {:induction false} Inside(before: Bytes, entry: Bytes, after: Bytes)
    ensures var body := before + (entry + after);
            |before| + |entry| <= |body| && body[|before|..|before| + |entry|] == entry
  {
  }

  lemma {:induction false} EntriesMatch(before: Bytes, offsets: seq<nat>, size: nat, values: seq<Bytes>, i: nat,
                                        k: nat, after: Bytes)
    requires Genuine(offsets, size, values) && i <= k < |offsets|
    ensures HoldsEntry(before + (ReplyEntries(offsets, size, values, i) + after), |before| + 16 * (k - i), offsets[k],
                       values[k])
    decreases k - i
  {
    var entry, more := ReplyEntry(offsets[i], size, values[i]), ReplyEntries(offsets, size, values, i + 1);
    Assoc(entry, more, after);
    if i == k {
      Inside(before, entry, more + after);
      EntryAt(before + (entry + (more + after)), |before|, offsets[i], size, values[i]);
    } else {
      Assoc(before, entry, more + after);
      EntriesMatch(before + entry, offsets, size, values, i + 1, k, after);
    }
  }

  ghost predicate Genuine(offsets: seq<nat>, size: nat, values: seq<Bytes>) {
    && |values| == |offsets| && (size == 8 || size == 16)
    && forall j :: 0 <= j < |offsets| ==> offsets[j] <= 511 && |values[j]| == 8
  }

  /** A reply with the genuine entries anywhere in it parses to the genuine values or not at all. */
  ghost predicate NotMisled(prefix: Bytes, offsets: seq<nat>, size: nat, values: seq<Bytes>, after: Bytes) {
    Genuine(offsets, size, values) ==>
      var body := prefix + (ReplyEntries(offsets, size, values, 0) + after);
      Succeeds(MT7925, body, offsets) ==>
        forall k :: 0 <= k < |offsets| ==> ValueOf(MT7925, body, offsets[k]) == Le64(values[k], 0)
  }

  lemma {:induction false} EntryRead(body: Bytes, offsets: seq<nat>, k: nat, at: nat, value: Bytes)
    requires at % 2 == 0 && k < |offsets| && HoldsEntry(body, at, offsets[k], value)
    ensures Succeeds(MT7925, body, offsets) ==> ValueOf(MT7925, body, offsets[k]) == Le64(value, 0)
  {
    if Succeeds(MT7925, body, offsets) {
      GenuineOrFail(body, offsets, k, at);
    }
  }

  lemma {:induction false} EntriesRead(body: Bytes, offsets: seq<nat>, values: seq<Bytes>, at: nat)
    requires at % 2 == 0 && |values| == |offsets| && forall k :: 0 <= k < |offsets| ==> |values[k]| == 8
    requires forall k :: 0 <= k < |offsets| ==> HoldsEntry(body, at + 16 * k, offsets[k], values[k])
    ensures Succeeds(MT7925, body, offsets) ==>
              forall k :: 0 <= k < |offsets| ==> ValueOf(MT7925, body, offsets[k]) == Le64(values[k], 0)
  {
    if Succeeds(MT7925, body, offsets) {
      forall k | 0 <= k < |offsets|
        ensures ValueOf(MT7925, body, offsets[k]) == Le64(values[k], 0)
      {
        EntryRead(body, offsets, k, at + 16 * k, values[k]);
      }
    }
  }

  lemma {:induction false} EvenPrefix(prefix: Bytes, offsets: seq<nat>, size: nat, values: seq<Bytes>, after: Bytes)
    requires |prefix| % 2 == 0
    ensures NotMisled(prefix, offsets, size, values, after)
  {
    if Genuine(offsets, size, values) {
      var body := prefix + (ReplyEntries(offsets, size, values, 0) + after);
      forall k | 0 <= k < |offsets|
        ensures HoldsEntry(body, |prefix| + 16 * k, offsets[k], values[k])
      {
        EntriesMatch(prefix, offsets, size, values, 0, k, after);
      }
      EntriesRead(body, offsets, values, |prefix|);
    }
  }

  const IMITATION: Bytes := [1, 0, 0, 8, 0, 5, 0, 0]
  const IMITATION_TAIL: Bytes := [0, 42, 0, 0, 0, 0, 0, 0, 0]

  function Filler(p: nat): (b: Bytes)
    ensures |b| == p && forall i :: 0 <= i < p ==> b[i] == 1
  {
    seq(p, _ => 1)
  }

  /** A genuine entry for offset 5 after p octets of prefix, its value imitating another. */
  function OddReply(p: nat): Bytes {
    Filler(p) + (ReplyEntry(5, 16, IMITATION) + IMITATION_TAIL)
  }

  /** After any odd-length prefix the genuine entry is not seen, and one that its value imitates is:
      the parse succeeds with 42 where the entry carries another value. */
  lemma {:induction false} OddPrefixMisleads(p: nat)
    requires p % 2 == 1
    ensures Succeeds(MT7925, OddReply(p), [5])
    ensures ValueOf(MT7925, OddReply(p), 5) == 42 != Le64(IMITATION, 0)
  {
    OddReplyOctets(p);
    OnlyLookalike(OddReply(p), p - 1);
    LookalikeValue(OddReply(p), p - 1);
  }

  /** The exact condition: no reply with the genuine entries after a prefix of length p misleads the
      parser, whatever the octets, if and only if p is even. */
  lemma {:induction false} PrefixLengthExactly(p: nat)
    ensures p % 2 == 0 <==>
            forall prefix: Bytes, offsets: seq<nat>, size: nat, values: seq<Bytes>, after: Bytes ::
              |prefix| == p ==> NotMisled(prefix, offsets, size, values, after)
  {
    if p % 2 == 0 {
      forall prefix: Bytes, offsets: seq<nat>, size: nat, values: seq<Bytes>, after: Bytes | |prefix| == p
        ensures NotMisled(prefix, offsets, size, values, after)
      {
        EvenPrefix(prefix, offsets, size, values, after);
      }
    } else {
      OddPrefixMisleads(p);
      OneEntry(5, 16, IMITATION);
      assert !NotMisled(Filler(p), [5], 16, [IMITATION], IMITATION_TAIL);
    }
  }

  lemma {:induction false} OneEntry(offset: nat, size: nat, value: Bytes)
    requires offset <= 511 && (size == 8 || size == 16) && |value| == 8
    ensures ReplyEntries([offset], size, [value], 0) == ReplyEntry(offset, size, value)
  {
    assert ReplyEntries([offset], size, [value], 1) == [];
    Nil(ReplyEntry(offset, size, value));
  }

  /** The octets, counted from `at`, that decide which even positions match, and those of the
      lookalike's value. Before `at` every octet is 1. */
  predicate Lookalike(body: Bytes, at: nat) {
    && |body| == at + 26 && (forall i :: 0 <= i <= at ==> body[i] == 1)
    && body[at + 3] == 16 && body[at + 5] == 5 && body[at + 8] == 0 && body[at + 9] == 1
    && body[at + 10] == 0 && body[at + 11] == 0 && body[at + 12] == 8 && body[at + 13] == 0
    && body[at + 14..at + 18] == [5, 0, 0, 0] && body[at + 18..at + 26] == [42, 0, 0, 0, 0, 0, 0, 0]
  }

  /** The octets of the entry and what follows it. */
  lemma {:induction false} ImitationOctets()
    ensures ReplyEntry(5, 16, IMITATION) + IMITATION_TAIL ==
            [0, 0, 16, 0, 5, 0, 0, 0, 1, 0, 0, 8, 0, 5, 0, 0, 0, 42, 0, 0, 0, 0, 0, 0, 0]
  {
    FourOctets(5);
    assert PutLe16(16) == [16, 0];
  }

  lemma {:induction false} Shifted(a: Bytes, b: Bytes, at: nat, i: nat, j: nat)
    requires |a| == at && i <= j <= |b|
    ensures (a + b)[at + i..at + j] == b[i..j]
  {
  }

  lemma {:induction false} OddReplyOctets(p: nat)
    requires p % 2 == 1
    ensures Lookalike(OddReply(p), p - 1)
  {
    ImitationOctets();
    var rest: Bytes := [0, 0, 16, 0, 5, 0, 0, 0, 1, 0, 0, 8, 0, 5, 0, 0, 0, 42, 0, 0, 0, 0, 0, 0, 0];
    Shifted(Filler(p), rest, p, 13, 17);
    Shifted(Filler(p), rest, p, 17, 25);
  }

  lemma {:induction false} NoMatchBetween(body: Bytes, offset: nat, m: nat, n: nat)
    requires m <= n && forall k :: m <= k < n ==> !Match(body, offset, 2 * k)
    ensures Matches(body, offset, n) == Matches(body, offset, m)
    decreases n
  {
    if m < n {
      NoMatchBetween(body, offset, m, n - 1);
      assert !Match(body, offset, 2 * (n - 1));
    }
  }

  lemma {:induction false} LookalikeMatches(body: Bytes, at: nat)
    requires Lookalike(body, at)
    ensures Match(body, 5, at + 10)
  {
    FourOctets(5);
    assert PutLe32(5)[0..4] == PutLe32(5) == body[at + 14..at + 18];
    LeAgree(body, at + 14, PutLe32(5), 0, 4);
  }

  lemma {:induction false} NothingElseMatches(body: Bytes, at: nat, k: nat)
    requires Lookalike(body, at) && at % 2 == 0 && k != at / 2 + 5 && k < at / 2 + 10
    ensures !Match(body, 5, 2 * k)
  {
    assert body[at + 14] == body[at + 14..at + 18][0] && body[at + 18] == body[at + 18..at + 26][0];
    var i := 2 * k - at;
    assert i > 0 ==> i in {2, 4, 6, 8, 12, 14, 16, 18};
  }

  lemma {:induction false} NoneButOne(body: Bytes, offset: nat, m: nat, n: nat)
    requires m < n && Match(body, offset, 2 * m) && forall k :: 0 <= k < n && k != m ==> !Match(body, offset, 2 * k)
    ensures Matches(body, offset, n) == [2 * m]
  {
    NoMatchBetween(body, offset, 0, m);
    NoMatchBetween(body, offset, m + 1, n);
  }

  lemma {:induction false} OnlyLookalike(body: Bytes, at: nat)
    requires Lookalike(body, at) && at % 2 == 0
    ensures Matches(body, 5, Visits(body)) == [at + 10]
  {
    var m, n := at / 2 + 5, at / 2 + 10;
    LookalikeMatches(body, at);
    forall k | 0 <= k < n && k != m
      ensures !Match(body, 5, 2 * k)
    {
      NothingElseMatches(body, at, k);
    }
    NoneButOne(body, 5, m, n);
  }

  lemma {:induction false} LookalikeValue(body: Bytes, at: nat)
    requires Lookalike(body, at)
    ensures Le64(body, at + 18) == 42
  {
    SmallLe(42, 8);
    assert PutLe(42, 8)[0..8] == PutLe(42, 8) == body[at + 18..at + 26];
    LeAgree(body, at + 18, PutLe(42, 8), 0, 8);
    SmallFits(42, 8);
    LePut(42, 8);
  }

  lemma {:induction false} SmallLe(v: Byte, n: nat)
    requires n > 0
    ensures PutLe(v, n) == [v] + Zeros(n - 1)
  {
    if n > 1 {
      SmallLe(0, n - 1);
    }
  }

  lemma {:induction false} SmallFits(v: Byte, n: nat)
    requires n > 0
    ensures v < Pow256(n)
  {
    if n > 1 {
      SmallFits(v, n - 1);
    }
  }

  // ---------------------------------------------------------------- deltas

  /** mt_mib_delta. */
  function Delta(before: nat, after: nat, bits: nat, maxDelta: nat): Option<nat> {
    if bits != 32 && bits != 64 then None
    else if bits == 32 && (before >= U32_LIMIT || after >= U32_LIMIT) then None
    else
      var modulus := if bits == 32 then U32_LIMIT else 0x1_0000_0000_0000_0000;
      var value := (after - before) % modulus;
      if value > maxDelta then None else Some(value)
  }

  /** Of a counter that advanced by `advance`, however it wrapped, the delta is the advance exactly
      when that is within the bound and less than a full turn. */
  lemma {:induction false} DeltaIsAdvance(start: nat, advance: nat, bits: nat, maxDelta: nat)
    requires bits == 32 || bits == 64
    ensures var modulus := if bits == 32 then U32_LIMIT else 0x1_0000_0000_0000_0000;
            Delta(start % modulus, (start + advance) % modulus, bits, maxDelta) == Some(advance) <==>
            advance <= maxDelta && advance < modulus
  {
    var modulus := if bits == 32 then U32_LIMIT else 0x1_0000_0000_0000_0000;
    WrappedDifference(start, advance, modulus);
    SmallResidue(advance, modulus);
  }

  lemma {:induction false} SmallResidue(n: nat, modulus: nat)
    requires modulus > 0
    ensures n % modulus == n <==> n < modulus
  {
  }

  lemma {:induction false} WrappedDifference(start: nat, advance: nat, modulus: nat)
    requires modulus > 0
    ensures ((start + advance) % modulus - start % modulus) % modulus == advance % modulus
  {
    var q, s := DivMod(start, modulus);
    var p, r := DivMod(start + advance, modulus);
    ResidueOfDifference(advance, modulus, p, r, q, s);
  }

  lemma {:induction false} DivMod(x: nat, modulus: nat) returns (q: nat, r: nat)
    requires modulus > 0
    ensures x == modulus * q + r && r == x % modulus
  {
    q, r := x / modulus, x % modulus;
  }

  lemma {:induction false} ResidueOfDifference(advance: nat, m: nat, p: nat, r: nat, q: nat, s: nat)
    requires m > 0 && m * p + r == m * q + s + advance
    ensures (r - s) % m == advance % m
  {
    Differ(m, p, q);
    SameResidue(advance, p - q, m);
  }

  lemma {:induction false} Differ(m: int, a: int, b: int)
    ensures m * (a - b) == m * a - m * b
  {
  }

  lemma {:induction false} SameResidue(x: int, k: int, modulus: nat)
    requires modulus > 0
    ensures (x - modulus * k) % modulus == x % modulus
  {
    var q, r := x / modulus, x % modulus;
    var y := x - modulus * k;
    var p, s := y / modulus, y % modulus;
    assert modulus * (q - k - p) == s - r;
    Multiple(modulus, q - k - p);
  }

  lemma {:induction false} Multiple(modulus: nat, d: int)
    ensures d >= 1 ==> modulus * d >= modulus
    ensures d <= -1 ==> modulus * d + modulus <= 0
  {
  }
}
