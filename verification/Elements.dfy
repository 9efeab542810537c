/** 802.11 elements: the walk of an element chain and the two levels of fragment reassembly
    (rxd.py), against the fragmenting encoder of IEEE 802.11-2020 section 10.28.11, which the
    program itself does not contain. */
module Elements {
  import opened Wire

  const EID_FRAGMENT: Byte := 242
  const EID_EXTENSION: Byte := 255
  const SUBELEM_FRAGMENT: Byte := 254

  /** One element or subelement. `value` may exceed 255 octets: then it only fits the wire
      after fragmentation. */
  datatype Element = Element(id: Byte, value: Bytes)

  // ---------------------------------------------------------------- encoder

  ghost predicate Fits(es: seq<Element>) {
    forall i :: 0 <= i < |es| ==> |es[i].value| <= 255
  }

  function EncodeOne(e: Element): Bytes
    requires |e.value| <= 255
  {
    [e.id, |e.value|] + e.value
  }

  function Encode(es: seq<Element>): Bytes
    requires Fits(es)
  {
    if es == [] then [] else EncodeOne(es[0]) + Encode(es[1..])
  }

  /** The pieces after the first: all of 255 octets except possibly the last, none empty. */
  function Fragments(fragId: Byte, rest: Bytes): (es: seq<Element>)
    ensures Fits(es)
    ensures forall i :: 0 <= i < |es| ==> es[i].id == fragId
    decreases |rest|
  {
    if rest == [] then []
    else if |rest| <= 255 then [Element(fragId, rest)]
    else [Element(fragId, rest[..255])] + Fragments(fragId, rest[255..])
  }

  function Fragmented(e: Element, fragId: Byte): (es: seq<Element>)
    ensures Fits(es)
  {
    if |e.value| <= 255 then [e]
    else [Element(e.id, e.value[..255])] + Fragments(fragId, e.value[255..])
  }

  function FragmentedAll(es: seq<Element>, fragId: Byte): (r: seq<Element>)
    ensures Fits(r)
  {
    if es == [] then [] else Fragmented(es[0], fragId) + FragmentedAll(es[1..], fragId)
  }

  /** The pieces of an extension element: element 255 carrying the extension id and `payload`. */
  function ExtensionPieces(extId: Byte, payload: Bytes): (es: seq<Element>)
    ensures Fits(es)
  {
    Fragmented(Element(255, [extId] + payload), 242)
  }

  /** The last piece of `value` is full, so a reader looks for one more fragment. */
  predicate Open(value: Bytes) {
    |value| > 0 && |value| % 255 == 0
  }

  // ---------------------------------------------------------------- the element walk

  /** The complete elements of `body` from offset `i` on. */
  function WalkFrom(body: Bytes, i: nat): (es: seq<Element>)
    requires i <= |body|
    ensures Fits(es)
    decreases |body| - i
  {
    if i + 2 > |body| || i + 2 + body[i + 1] > |body| then []
    else
      var next := i + 2 + body[i + 1];
      [Element(body[i], body[i + 2..next])] + WalkFrom(body, next)
  }

  function Walk(body: Bytes): (es: seq<Element>)
    ensures Fits(es)
  {
    WalkFrom(body, 0)
  }

  /** What parse_ies keeps besides the ordered list: the first value of each id, as
      dict.setdefault leaves it, and the extension ids present. */
  datatype Index = Index(ies: map<Byte, Bytes>, extIds: set<Byte>)

  function IndexAdd(x: Index, e: Element): Index {
    Index(if e.id in x.ies then x.ies else x.ies[e.id := e.value],
          if e.id == EID_EXTENSION && e.value != [] then x.extIds + {e.value[0]} else x.extIds)
  }

  function IndexOf(es: seq<Element>, n: nat): Index
    requires n <= |es|
  {
    if n == 0 then Index(map[], {}) else IndexAdd(IndexOf(es, n - 1), es[n - 1])
  }

  ghost predicate IsFirst(es: seq<Element>, i: nat, n: nat) {
    i < n <= |es| && forall j :: 0 <= j < i ==> es[j].id != es[i].id
  }

  lemma {:induction false} IndexHolds(es: seq<Element>, n: nat, id: Byte)
    requires n <= |es|
    ensures id in IndexOf(es, n).ies <==> exists i :: 0 <= i < n && es[i].id == id
  {
    if n > 0 {
      IndexHolds(es, n - 1, id);
      if i :| 0 <= i < n && es[i].id == id {
        assert i < n - 1 || i == n - 1;
      }
    }
  }

  lemma {:induction false} IndexValue(es: seq<Element>, i: nat, n: nat)
    requires IsFirst(es, i, n)
    ensures es[i].id in IndexOf(es, n).ies && IndexOf(es, n).ies[es[i].id] == es[i].value
    decreases n
  {
    if i < n - 1 {
      IndexValue(es, i, n - 1);
    } else {
      IndexHolds(es, n - 1, es[i].id);
    }
  }

  /** `ies` in terms of the list alone: the first occurrence of every id wins. */
  lemma {:induction false} FirstValueWins(es: seq<Element>, n: nat)
    requires n <= |es|
    ensures forall i: nat :: IsFirst(es, i, n) ==>
              es[i].id in IndexOf(es, n).ies && IndexOf(es, n).ies[es[i].id] == es[i].value
    ensures forall id :: id in IndexOf(es, n).ies <==> exists i :: 0 <= i < n && es[i].id == id
  {
    forall i: nat | IsFirst(es, i, n)
      ensures es[i].id in IndexOf(es, n).ies && IndexOf(es, n).ies[es[i].id] == es[i].value
    {
      IndexValue(es, i, n);
    }
    forall id
      ensures id in IndexOf(es, n).ies <==> exists i :: 0 <= i < n && es[i].id == id
    {
      IndexHolds(es, n, id);
    }
  }

  /** An extension id is reported exactly if some extension element carries it. */
  lemma {:induction false} ExtIdsComplete(es: seq<Element>, n: nat, x: Byte)
    requires n <= |es|
    ensures x in IndexOf(es, n).extIds <==> exists i :: 0 <= i < n && Starts(es[i], x)
  {
    if n > 0 {
      ExtIdsComplete(es, n - 1, x);
      assert x in IndexOf(es, n).extIds <==> x in IndexOf(es, n - 1).extIds || Starts(es[n - 1], x);
    }
  }

  lemma {:induction false} IndexPrefix(es: seq<Element>, e: Element, n: nat)
    requires n <= |es|
    ensures IndexOf(es + [e], n) == IndexOf(es, n)
  {
    if n > 0 {
      IndexPrefix(es, e, n - 1);
      assert (es + [e])[n - 1] == es[n - 1];
    }
  }

  lemma {:induction false} IndexGrows(es: seq<Element>, e: Element)
    ensures IndexOf(es + [e], |es| + 1) == IndexAdd(IndexOf(es, |es|), e)
  {
    IndexPrefix(es, e, |es|);
  }

  lemma {:induction false} WalkGrows(body: Bytes, i: nat, list: seq<Element>)
    requires i + 2 <= |body| && i + 2 + body[i + 1] <= |body|
    ensures var next := i + 2 + body[i + 1];
            list + WalkFrom(body, i) == (list + [Element(body[i], body[i + 2..next])]) + WalkFrom(body, next)
  {
    var next := i + 2 + body[i + 1];
    Assoc(list, [Element(body[i], body[i + 2..next])], WalkFrom(body, next));
  }

  method ParseIes(body: Bytes) returns (ieList: seq<Element>, index: Index)
    ensures ieList == Walk(body)
    ensures index == IndexOf(ieList, |ieList|)
  {
    ieList, index := [], Index(map[], {});
    var i := 0;
    ghost var whole := Walk(body);
    Nil(whole);
    while i + 2 <= |body|
      invariant 0 <= i <= |body|
      invariant whole == ieList + WalkFrom(body, i)
      invariant index == IndexOf(ieList, |ieList|)
      decreases |body| - i
    {
      var next := i + 2 + body[i + 1];
      if next > |body| {
        break;
      }
      var e := Element(body[i], body[i + 2..next]);
      WalkGrows(body, i, ieList);
      IndexGrows(ieList, e);
      ieList := ieList + [e];
      index := IndexAdd(index, e);
      i := next;
    }
    Nil(ieList);
  }

  /** An encoded element seen from inside the buffer that holds it. */
  lemma {:induction false} HeadAt(body: Bytes, at: nat, e: Element, rest: Bytes)
    requires |e.value| <= 255 && at <= |body| && body[at..] == EncodeOne(e) + rest
    ensures var n := |e.value|;
            && at + 2 + n <= |body|
            && body[at] == e.id && body[at + 1] == n
            && body[at + 2..at + 2 + n] == e.value
            && body[at + 2 + n..] == rest
  {
    var here, n := body[at..], |e.value|;
    assert body[at] == here[0] && body[at + 1] == here[1];
    assert body[at + 2..at + 2 + n] == here[2..2 + n] == e.value;
    assert body[at + 2 + n..] == here[2 + n..];
  }

  /** Walking undoes encoding, wherever the encoding stands in the buffer. */
  lemma {:induction false} WalkEncodeAt(body: Bytes, i: nat, es: seq<Element>)
    requires Fits(es) && i <= |body| && body[i..] == Encode(es)
    ensures WalkFrom(body, i) == es
    decreases |es|
  {
    if es != [] {
      HeadAt(body, i, es[0], Encode(es[1..]));
      WalkEncodeAt(body, i + 2 + |es[0].value|, es[1..]);
    }
  }

  lemma {:induction false} WalkEncode(es: seq<Element>)
    requires Fits(es)
    ensures Walk(Encode(es)) == es
  {
    assert Encode(es)[0..] == Encode(es);
    WalkEncodeAt(Encode(es), 0, es);
  }

  /** The offset at which the walk from `i` stops. */
  ghost function WalkEnd(body: Bytes, i: nat): (e: nat)
    requires i <= |body|
    ensures i <= e <= |body|
    decreases |body| - i
  {
    if i + 2 > |body| || i + 2 + body[i + 1] > |body| then i
    else WalkEnd(body, i + 2 + body[i + 1])
  }

  /** The octets the walk consumed are exactly the encoding of what it returned, and no complete
      element starts where it stops. */
  lemma {:induction false} EncodeWalk(body: Bytes, i: nat)
    requires i <= |body|
    ensures var e := WalkEnd(body, i);
            body[i..e] == Encode(WalkFrom(body, i)) && WalkFrom(body, e) == []
    decreases |body| - i
  {
    if i + 2 <= |body| && i + 2 + body[i + 1] <= |body| {
      var next := i + 2 + body[i + 1];
      EncodeWalk(body, next);
      var es := WalkFrom(body, i);
      assert es[1..] == WalkFrom(body, next);
      assert body[i..WalkEnd(body, i)] == EncodeOne(es[0]) + body[next..WalkEnd(body, next)];
    }
  }

  lemma {:induction false} EncodeAppend(a: seq<Element>, b: seq<Element>)
    requires Fits(a) && Fits(b)
    ensures Fits(a + b) && Encode(a + b) == Encode(a) + Encode(b)
  {
    if a == [] {
      Nil(b);
      Nil(Encode(b));
    } else {
      EncodeAppend(a[1..], b);
      TailOfConcat(a, b);
      Assoc(EncodeOne(a[0]), Encode(a[1..]), Encode(b));
    }
  }

  // ---------------------------------------------------------------- extension elements

  predicate Starts(e: Element, extId: Byte) {
    e.id == EID_EXTENSION && e.value != [] && e.value[0] == extId
  }

  /** What continuation fragments add, up to the first that is not full. */
  function Continuation(es: seq<Element>): Bytes {
    if es == [] || es[0].id != EID_FRAGMENT then []
    else es[0].value + (if |es[0].value| == 255 then Continuation(es[1..]) else [])
  }

  function Reassembled(es: seq<Element>, extId: Byte): Option<Bytes> {
    if es == [] then None
    else if Starts(es[0], extId) then
      Some(es[0].value[1..] + (if |es[0].value| == 255 then Continuation(es[1..]) else []))
    else Reassembled(es[1..], extId)
  }

  lemma {:induction false} ReassembledAt(es: seq<Element>, i: nat, extId: Byte)
    requires i < |es|
    ensures Reassembled(es[i..], extId) ==
            if Starts(es[i], extId) then
              Some(es[i].value[1..] + (if |es[i].value| == 255 then Continuation(es[i + 1..]) else []))
            else Reassembled(es[i + 1..], extId)
  {
    assert es[i..][1..] == es[i + 1..];
  }

  lemma {:induction false} ContinuationAt(es: seq<Element>, k: nat)
    requires k < |es|
    ensures Continuation(es[k..]) ==
            if es[k].id != EID_FRAGMENT then []
            else es[k].value + (if |es[k].value| == 255 then Continuation(es[k + 1..]) else [])
  {
    assert es[k..][1..] == es[k + 1..];
  }

  method ReassembleExtension(ieList: seq<Element>, extId: Byte) returns (r: Option<Bytes>)
    ensures r == Reassembled(ieList, extId)
  {
    assert ieList[0..] == ieList;
    for index := 0 to |ieList|
      invariant Reassembled(ieList, extId) == Reassembled(ieList[index..], extId)
    {
      ReassembledAt(ieList, index, extId);
      var value := ieList[index].value;
      if ieList[index].id != EID_EXTENSION || value == [] || value[0] != extId {
        continue;
      }
      var joined := value[1..];
      if |value| == 255 {
        var more := JoinFragments(ieList, index + 1);
        joined := joined + more;
      } else {
        assert joined + [] == joined;
      }
      return Some(joined);
    }
    return None;
  }

  /** The inner loop: what the fragments from position `k` contribute. */
  method JoinFragments(ieList: seq<Element>, k: nat) returns (joined: Bytes)
    requires k <= |ieList|
    ensures joined == Continuation(ieList[k..])
  {
    joined := [];
    var i := k;
    assert Continuation(ieList[k..]) == joined + Continuation(ieList[i..]);
    while i < |ieList|
      invariant k <= i <= |ieList|
      invariant Continuation(ieList[k..]) == joined + Continuation(ieList[i..])
    {
      ContinuationAt(ieList, i);
      var next := ieList[i];
      if next.id != EID_FRAGMENT {
        break;
      }
      JoinStep(joined, next.value, if |next.value| == 255 then Continuation(ieList[i + 1..]) else []);
      joined := joined + next.value;
      if |next.value| != 255 {
        return;
      }
      i := i + 1;
    }
  }

  lemma {:induction false} JoinStep(a: Bytes, b: Bytes, c: Bytes)
    ensures a + (b + c) == a + b + c
    ensures c == [] ==> a + (b + c) == a + b
  {
  }

  lemma {:induction false} ContinuationStep(es: seq<Element>, more: seq<Element>)
    requires es != [] && es[0].id == EID_FRAGMENT && es[1..] == more
    ensures Continuation(es) == es[0].value + (if |es[0].value| == 255 then Continuation(more) else [])
  {
  }

  lemma {:induction false} ContinuationOfLast(rest: Bytes, after: seq<Element>)
    requires 0 < |rest| <= 255
    ensures Continuation(Fragments(EID_FRAGMENT, rest) + after) ==
            rest + (if |rest| == 255 then Continuation(after) else [])
  {
    var fs := Fragments(EID_FRAGMENT, rest);
    TailOfConcat(fs, after);
    Nil(after);
    ContinuationStep(fs + after, after);
  }

  lemma {:induction false} ContinuationOfFull(rest: Bytes, after: seq<Element>, more: Bytes)
    requires |rest| > 255
    requires Continuation(Fragments(EID_FRAGMENT, rest[255..]) + after) == rest[255..] + more
    ensures Continuation(Fragments(EID_FRAGMENT, rest) + after) == rest + more
  {
    var fs := Fragments(EID_FRAGMENT, rest);
    TailOfConcat(fs, after);
    ContinuationStep(fs + after, Fragments(EID_FRAGMENT, rest[255..]) + after);
    SplitAt(rest, 255);
    Assoc(rest[..255], rest[255..], more);
  }

  lemma {:induction false} ContinuationOfFragments(rest: Bytes, after: seq<Element>)
    ensures Continuation(Fragments(EID_FRAGMENT, rest) + after) ==
            rest + (if |rest| % 255 == 0 then Continuation(after) else [])
    decreases |rest|
  {
    if rest == [] {
      Nil(after);
      Nil(Continuation(after));
    } else if |rest| <= 255 {
      ContinuationOfLast(rest, after);
    } else {
      ContinuationOfFragments(rest[255..], after);
      assert |rest| % 255 == |rest[255..]| % 255;
      ContinuationOfFull(rest, after, if |rest| % 255 == 0 then Continuation(after) else []);
    }
  }

  lemma {:induction false} ReassembledSkips(before: seq<Element>, es: seq<Element>, extId: Byte)
    requires forall i :: 0 <= i < |before| ==> !Starts(before[i], extId)
    ensures Reassembled(before + es, extId) == Reassembled(es, extId)
  {
    if before == [] {
      assert before + es == es;
    } else {
      ReassembledSkips(before[1..], es, extId);
      assert (before + es)[1..] == before[1..] + es;
    }
  }

  lemma {:induction false} ReassembledHead(es: seq<Element>, extId: Byte)
    requires es != [] && Starts(es[0], extId)
    ensures Reassembled(es, extId) ==
            Some(es[0].value[1..] + (if |es[0].value| == 255 then Continuation(es[1..]) else []))
  {
  }

  lemma {:induction false} ReassembledFirst(pieces: seq<Element>, extId: Byte, payload: Bytes, after: seq<Element>)
    requires pieces == ExtensionPieces(extId, payload)
    ensures Reassembled(pieces + after, extId) ==
            Some(payload + (if Open([extId] + payload) then Continuation(after) else []))
  {
    var info := [extId] + payload;
    TailOfConcat(pieces, after);
    ReassembledHead(pieces + after, extId);
    if |info| <= 255 {
      Nil(after);
      assert info[1..] == payload;
      Nil(payload);
    } else {
      var rest := info[255..];
      ContinuationOfFragments(rest, after);
      assert |info| % 255 == |rest| % 255;
      assert info[..255][1..] + rest == payload;
      Assoc(info[..255][1..], rest, if Open(info) then Continuation(after) else []);
    }
  }

  /** What reassembly returns for a fragmented extension element, whatever surrounds it. */
  lemma {:induction false} ReassembledPieces(before: seq<Element>, extId: Byte, payload: Bytes, after: seq<Element>)
    requires forall i :: 0 <= i < |before| ==> !Starts(before[i], extId)
    ensures Reassembled(before + ExtensionPieces(extId, payload) + after, extId) ==
            Some(payload + (if Open([extId] + payload) then Continuation(after) else []))
  {
    var pieces := ExtensionPieces(extId, payload);
    assert before + pieces + after == before + (pieces + after);
    ReassembledSkips(before, pieces + after, extId);
    ReassembledFirst(pieces, extId, payload, after);
  }

  /** Over the air and back: the payload returns exactly when the element that follows cannot
      be mistaken for one more fragment of a full last piece. */
  lemma {:induction false} ExtensionRoundTrip(before: seq<Element>, extId: Byte, payload: Bytes, after: seq<Element>)
    requires Fits(before) && Fits(after)
    requires forall i :: 0 <= i < |before| ==> !Starts(before[i], extId)
    ensures var sent := before + ExtensionPieces(extId, payload) + after;
            && Fits(sent)
            && (Reassembled(Walk(Encode(sent)), extId) == Some(payload) <==>
                !Open([extId] + payload) || after == [] || after[0].id != EID_FRAGMENT || after[0].value == [])
  {
    var sent := before + ExtensionPieces(extId, payload) + after;
    WalkEncode(sent);
    ReassembledPieces(before, extId, payload, after);
    assert payload + [] == payload;
    if after != [] && after[0].id == EID_FRAGMENT && after[0].value != [] {
      assert |Continuation(after)| > 0;
      assert |payload + Continuation(after)| > |payload|;
    } else {
      assert Continuation(after) == [];
    }
  }

  // ---------------------------------------------------------------- subelements

  /** Fragments joined, the offset reached, and whether one overran the body. */
  datatype Absorbed = Absorbed(joined: Bytes, next: nat, truncated: bool)
  datatype SubWalk = SubWalk(subs: seq<Element>, truncated: bool)

  /** Fragments taken after a piece of `last` octets. A fragment that overruns the body is
      reported and left where its value starts. */
  function Absorb(body: Bytes, last: nat, at: nat): (a: Absorbed)
    requires at <= |body|
    ensures at <= a.next <= |body|
    decreases |body| - at
  {
    if last == 255 && at + 2 <= |body| && body[at] == SUBELEM_FRAGMENT then
      var n := body[at + 1];
      if at + 2 + n > |body| then Absorbed([], at + 2, true)
      else
        var a := Absorb(body, n, at + 2 + n);
        Absorbed(body[at + 2..at + 2 + n] + a.joined, a.next, a.truncated)
    else Absorbed([], at, false)
  }

  function SubelementsFrom(body: Bytes, at: nat): SubWalk
    requires at <= |body|
    decreases |body| - at
  {
    if at + 2 > |body| then SubWalk([], false)
    else if at + 2 + body[at + 1] > |body| then SubWalk([], true)
    else
      var n := body[at + 1];
      var a := Absorb(body, n, at + 2 + n);
      var s := SubelementsFrom(body, a.next);
      SubWalk([Element(body[at], body[at + 2..at + 2 + n] + a.joined)] + s.subs, a.truncated || s.truncated)
  }

  function SubelementsOf(body: Bytes): SubWalk {
    SubelementsFrom(body, 0)
  }

  /** `out`, and what a walk from `at` would still give, make up the walk of the whole body. */
  ghost predicate WalkedTo(body: Bytes, at: nat, out: seq<Element>, truncated: bool) {
    && at <= |body|
    && var s := SubelementsFrom(body, at);
       SubelementsOf(body) == SubWalk(out + s.subs, truncated || s.truncated)
  }

  lemma {:induction false} WalkedOn(body: Bytes, at: nat, out: seq<Element>, p: Element, truncated: bool, a: Absorbed)
    requires WalkedTo(body, at, out, truncated) && at + 2 <= |body| && at + 2 + body[at + 1] <= |body|
    requires p == Element(body[at], body[at + 2..at + 2 + body[at + 1]])
    requires a == Absorb(body, body[at + 1], at + 2 + body[at + 1])
    ensures WalkedTo(body, a.next, out + [Element(p.id, p.value + a.joined)], truncated || a.truncated)
  {
    Assoc(out, [Element(p.id, p.value + a.joined)], SubelementsFrom(body, a.next).subs);
  }

  lemma {:induction false} WalkedOut(body: Bytes, at: nat, out: seq<Element>, truncated: bool)
    requires WalkedTo(body, at, out, truncated) && (at + 2 > |body| || at + 2 + body[at + 1] > |body|)
    ensures SubelementsOf(body) == SubWalk(out, truncated || at + 2 <= |body|)
  {
    Nil(out);
  }

  method ReassembleSubelements(body: Bytes) returns (out: seq<Element>, truncated: bool)
    ensures SubWalk(out, truncated) == SubelementsOf(body)
  {
    out, truncated := [], false;
    var offset := 0;
    Nil(SubelementsOf(body).subs);
    while offset + 2 <= |body|
      invariant WalkedTo(body, offset, out, truncated)
      decreases |body| - offset
    {
      ghost var at := offset;
      var subId, subLen := body[offset], body[offset + 1];
      offset := offset + 2;
      if offset + subLen > |body| {
        WalkedOut(body, at, out, truncated);
        truncated := true;
        return;
      }
      var part := body[offset..offset + subLen];
      offset := offset + subLen;
      var more, cut;
      more, offset, cut := JoinContinuations(body, subLen, offset);
      WalkedOn(body, at, out, Element(subId, part), truncated, Absorbed(more, offset, cut));
      out := out + [Element(subId, part + more)];
      truncated := truncated || cut;
    }
    WalkedOut(body, offset, out, truncated);
  }

  /** `joined`, and what would still be absorbed from `offset`, make up all that is absorbed. */
  ghost predicate AbsorbedTo(whole: Absorbed, body: Bytes, joined: Bytes, lastLen: Byte, offset: nat) {
    && offset <= |body|
    && var b := Absorb(body, lastLen, offset);
       whole == Absorbed(joined + b.joined, b.next, b.truncated)
  }

  lemma {:induction false} AbsorbedOn(whole: Absorbed, body: Bytes, joined: Bytes, offset: nat)
    requires AbsorbedTo(whole, body, joined, 255, offset)
    requires offset + 2 <= |body| && body[offset] == SUBELEM_FRAGMENT && offset + 2 + body[offset + 1] <= |body|
    ensures var n := body[offset + 1];
            AbsorbedTo(whole, body, joined + body[offset + 2..offset + 2 + n], n, offset + 2 + n)
  {
    var n := body[offset + 1];
    Assoc(joined, body[offset + 2..offset + 2 + n], Absorb(body, n, offset + 2 + n).joined);
  }

  /** Nothing more is absorbed: no fragment follows, or it overruns the body. */
  lemma {:induction false} AbsorbedOut(whole: Absorbed, body: Bytes, joined: Bytes, lastLen: Byte, offset: nat)
    requires AbsorbedTo(whole, body, joined, lastLen, offset)
    requires var more := lastLen == 255 && offset + 2 <= |body| && body[offset] == SUBELEM_FRAGMENT;
             more ==> offset + 2 + body[offset + 1] > |body|
    ensures var more := lastLen == 255 && offset + 2 <= |body| && body[offset] == SUBELEM_FRAGMENT;
            whole == Absorbed(joined, if more then offset + 2 else offset, more)
  {
    Nil(joined);
  }

  /** The inner loop of the subelement walk. */
  method JoinContinuations(body: Bytes, subLen: Byte, at: nat)
    returns (joined: Bytes, offset: nat, truncated: bool)
    requires at <= |body|
    ensures Absorbed(joined, offset, truncated) == Absorb(body, subLen, at)
  {
    joined, offset, truncated := [], at, false;
    var lastLen := subLen;
    ghost var whole := Absorb(body, subLen, at);
    Nil(whole.joined);
    while lastLen == 255 && offset + 2 <= |body| && body[offset] == SUBELEM_FRAGMENT
      invariant AbsorbedTo(whole, body, joined, lastLen, offset)
      decreases |body| - offset
    {
      var fragLen := body[offset + 1];
      if offset + 2 + fragLen > |body| {
        AbsorbedOut(whole, body, joined, lastLen, offset);
        offset, truncated := offset + 2, true;
        return;
      }
      AbsorbedOn(whole, body, joined, offset);
      offset := offset + 2;
      joined := joined + body[offset..offset + fragLen];
      offset := offset + fragLen;
      lastLen := fragLen;
    }
    AbsorbedOut(whole, body, joined, lastLen, offset);
  }

  // Reassembly of a complete body, first on pieces and then on whole subelements.

  datatype Taken = Taken(joined: Bytes, rest: seq<Element>)

  function TakePieces(last: nat, ps: seq<Element>): (t: Taken)
    ensures |t.rest| <= |ps|
    ensures Fits(ps) ==> Fits(t.rest)
    decreases |ps|
  {
    if last == 255 && ps != [] && ps[0].id == SUBELEM_FRAGMENT then
      var t := TakePieces(|ps[0].value|, ps[1..]);
      Taken(ps[0].value + t.joined, t.rest)
    else Taken([], ps)
  }

  function JoinPieces(ps: seq<Element>): seq<Element>
    decreases |ps|
  {
    if ps == [] then []
    else
      var t := TakePieces(|ps[0].value|, ps[1..]);
      [Element(ps[0].id, ps[0].value + t.joined)] + JoinPieces(t.rest)
  }

  lemma {:induction false} AbsorbEncoded(body: Bytes, last: nat, at: nat, ps: seq<Element>)
    requires Fits(ps) && at <= |body| && body[at..] == Encode(ps)
    ensures var a, t := Absorb(body, last, at), TakePieces(last, ps);
            a.joined == t.joined && !a.truncated && body[a.next..] == Encode(t.rest)
    decreases |ps|
  {
    if ps != [] {
      HeadAt(body, at, ps[0], Encode(ps[1..]));
      var n := |ps[0].value|;
      AbsorbEncoded(body, n, at + 2 + n, ps[1..]);
    }
  }

  lemma {:induction false} SubelementsStep(body: Bytes, at: nat, p: Element, joined: Bytes, next: nat,
                                           subs: seq<Element>)
    requires at + 2 + |p.value| <= |body| && |p.value| <= 255
    requires body[at] == p.id && body[at + 1] == |p.value| && body[at + 2..at + 2 + |p.value|] == p.value
    requires Absorb(body, |p.value|, at + 2 + |p.value|) == Absorbed(joined, next, false)
    requires SubelementsFrom(body, next) == SubWalk(subs, false)
    ensures SubelementsFrom(body, at) == SubWalk([Element(p.id, p.value + joined)] + subs, false)
  {
  }

  lemma {:induction false} JoinPiecesStep(ps: seq<Element>, joined: Bytes, rest: seq<Element>)
    requires ps != [] && TakePieces(|ps[0].value|, ps[1..]) == Taken(joined, rest)
    ensures JoinPieces(ps) == [Element(ps[0].id, ps[0].value + joined)] + JoinPieces(rest)
  {
  }

  lemma {:induction false} SubelementsOfEncoded(body: Bytes, at: nat, ps: seq<Element>)
    requires Fits(ps) && at <= |body| && body[at..] == Encode(ps)
    ensures SubelementsFrom(body, at) == SubWalk(JoinPieces(ps), false)
    decreases |ps|
  {
    if ps == [] {
      assert at == |body|;
    } else {
      var p := ps[0];
      HeadAt(body, at, p, Encode(ps[1..]));
      var n := |p.value|;
      AbsorbEncoded(body, n, at + 2 + n, ps[1..]);
      var a, t := Absorb(body, n, at + 2 + n), TakePieces(n, ps[1..]);
      SubelementsOfEncoded(body, a.next, t.rest);
      SubelementsStep(body, at, p, t.joined, a.next, JoinPieces(t.rest));
      JoinPiecesStep(ps, t.joined, t.rest);
    }
  }

  /** Whole subelements swallowed after an open value: each Fragment-numbered neighbour, as long
      as the last one taken is itself open. */
  function Swallow(open: bool, subs: seq<Element>): (t: Taken)
    ensures |t.rest| <= |subs|
    ensures (t.rest == subs) == !(open && subs != [] && subs[0].id == SUBELEM_FRAGMENT)
    decreases |subs|
  {
    if open && subs != [] && subs[0].id == SUBELEM_FRAGMENT then
      var t := Swallow(Open(subs[0].value), subs[1..]);
      Taken(subs[0].value + t.joined, t.rest)
    else Taken([], subs)
  }

  function Merged(subs: seq<Element>): (m: seq<Element>)
    ensures |m| <= |subs|
    decreases |subs|
  {
    if subs == [] then []
    else
      var t := Swallow(Open(subs[0].value), subs[1..]);
      [Element(subs[0].id, subs[0].value + t.joined)] + Merged(t.rest)
  }

  lemma {:induction false} TakeStep(ps: seq<Element>)
    requires ps != [] && ps[0].id == SUBELEM_FRAGMENT
    ensures var t := TakePieces(|ps[0].value|, ps[1..]);
            TakePieces(255, ps) == Taken(ps[0].value + t.joined, t.rest)
  {
  }

  lemma {:induction false} TakeFullFragment(rest: Bytes, ps: seq<Element>, t: Taken)
    requires |rest| > 255
    requires TakePieces(255, Fragments(SUBELEM_FRAGMENT, rest[255..]) + ps) == Taken(rest[255..] + t.joined, t.rest)
    ensures TakePieces(255, Fragments(SUBELEM_FRAGMENT, rest) + ps) == Taken(rest + t.joined, t.rest)
  {
    var fs := Fragments(SUBELEM_FRAGMENT, rest);
    TailOfConcat(fs, ps);
    TakeStep(fs + ps);
    SplitAt(rest, 255);
    Assoc(rest[..255], rest[255..], t.joined);
  }

  lemma {:induction false} TakeLastFragment(rest: Bytes, ps: seq<Element>)
    requires 0 < |rest| <= 255
    ensures var t := TakePieces(|rest|, ps);
            TakePieces(255, Fragments(SUBELEM_FRAGMENT, rest) + ps) == Taken(rest + t.joined, t.rest)
  {
    var fs := Fragments(SUBELEM_FRAGMENT, rest);
    TailOfConcat(fs, ps);
    Nil(ps);
    TakeStep(fs + ps);
  }

  /** Only a full last piece lets a reader go on. */
  lemma {:induction false} TakeAfterShort(n: nat, ps: seq<Element>)
    requires 0 < n <= 255
    ensures TakePieces(n, ps) == TakePieces(if n % 255 == 0 then 255 else 0, ps)
  {
  }

  lemma {:induction false} TakeOwnFragments(rest: Bytes, ps: seq<Element>)
    ensures var t := TakePieces(if |rest| % 255 == 0 then 255 else 0, ps);
            TakePieces(255, Fragments(SUBELEM_FRAGMENT, rest) + ps) == Taken(rest + t.joined, t.rest)
    decreases |rest|
  {
    var t := TakePieces(if |rest| % 255 == 0 then 255 else 0, ps);
    if rest == [] {
      Nil(ps);
      Nil(t.joined);
    } else if |rest| <= 255 {
      TakeLastFragment(rest, ps);
      TakeAfterShort(|rest|, ps);
    } else {
      TakeOwnFragments(rest[255..], ps);
      assert |rest| % 255 == |rest[255..]| % 255;
      TakeFullFragment(rest, ps, t);
    }
  }

  /** After the first piece of `e`, a reader takes the rest of `e` and then goes on at `ps`
      exactly if `e` is open. */
  /** Joined up, the pieces of `e` and then those of `ps` that a reader takes. */
  ghost predicate TakesAll(first: Bytes, t: Taken, value: Bytes, after: Taken) {
    t.rest == after.rest && first + t.joined == value + after.joined
  }

  lemma {:induction false} TakeAfterLong(e: Element, ps: seq<Element>, after: Taken)
    requires |e.value| > 255 && after == TakePieces(if |e.value| % 255 == 0 then 255 else 0, ps)
    ensures var pieces := Fragmented(e, SUBELEM_FRAGMENT);
            TakesAll(pieces[0].value, TakePieces(255, pieces[1..] + ps), e.value, after)
  {
    var pieces, rest := Fragmented(e, SUBELEM_FRAGMENT), e.value[255..];
    assert pieces[1..] == Fragments(SUBELEM_FRAGMENT, rest);
    TakeOwnFragments(rest, ps);
    assert |rest| % 255 == |e.value| % 255;
    SplitAt(e.value, 255);
    Assoc(e.value[..255], rest, after.joined);
  }

  lemma {:induction false} TakeAfterFirst(e: Element, ps: seq<Element>)
    ensures var pieces := Fragmented(e, SUBELEM_FRAGMENT);
            var t := TakePieces(if Open(e.value) then 255 else 0, ps);
            && TakePieces(|pieces[0].value|, pieces[1..] + ps).rest == t.rest
            && pieces[0].value + TakePieces(|pieces[0].value|, pieces[1..] + ps).joined == e.value + t.joined
  {
    if |e.value| <= 255 {
      Nil(ps);
      assert [e][1..] == [];
    } else {
      TakeAfterLong(e, ps, TakePieces(if Open(e.value) then 255 else 0, ps));
    }
  }

  lemma {:induction false} TakeWhole(open: bool, subs: seq<Element>)
    ensures var t := Swallow(open, subs);
            TakePieces(if open then 255 else 0, FragmentedAll(subs, SUBELEM_FRAGMENT)) ==
            Taken(t.joined, FragmentedAll(t.rest, SUBELEM_FRAGMENT))
    decreases |subs|
  {
    if open && subs != [] && subs[0].id == SUBELEM_FRAGMENT {
      var ps := FragmentedAll(subs[1..], SUBELEM_FRAGMENT);
      var pieces := Fragmented(subs[0], SUBELEM_FRAGMENT);
      TailOfConcat(pieces, ps);
      TakeAfterFirst(subs[0], ps);
      TakeWhole(Open(subs[0].value), subs[1..]);
      if open {
        TakeStep(pieces + ps);
        var t := Swallow(Open(subs[0].value), subs[1..]);
        var first := TakePieces(|pieces[0].value|, pieces[1..] + ps);
        assert pieces[0].value + first.joined == subs[0].value + t.joined;
      }
    }
  }

  lemma {:induction false} JoinFragmented(subs: seq<Element>)
    ensures JoinPieces(FragmentedAll(subs, SUBELEM_FRAGMENT)) == Merged(subs)
    decreases |subs|
  {
    if subs != [] {
      var ps := FragmentedAll(subs[1..], SUBELEM_FRAGMENT);
      var pieces := Fragmented(subs[0], SUBELEM_FRAGMENT);
      TailOfConcat(pieces, ps);
      TakeAfterFirst(subs[0], ps);
      TakeWhole(Open(subs[0].value), subs[1..]);
      JoinFragmented(Swallow(Open(subs[0].value), subs[1..]).rest);
    }
  }

  /** No subelement numbered like a fragment follows a value whose last piece is full. */
  predicate Unambiguous(subs: seq<Element>) {
    forall i :: 0 <= i < |subs| - 1 ==> !(Open(subs[i].value) && subs[i + 1].id == SUBELEM_FRAGMENT)
  }

  lemma {:induction false} MergedIsIdentity(subs: seq<Element>)
    ensures Merged(subs) == subs <==> Unambiguous(subs)
    ensures Merged(subs) != subs ==> |Merged(subs)| < |subs|
    decreases |subs|
  {
    if subs != [] {
      var t := Swallow(Open(subs[0].value), subs[1..]);
      if t.rest == subs[1..] {
        assert t.joined == [] && subs[0].value + t.joined == subs[0].value;
        MergedIsIdentity(subs[1..]);
        assert Unambiguous(subs) ==> Unambiguous(subs[1..]) by {
          if Unambiguous(subs) {
            forall i | 0 <= i < |subs[1..]| - 1
              ensures !(Open(subs[1..][i].value) && subs[1..][i + 1].id == SUBELEM_FRAGMENT)
            {
              assert subs[1..][i] == subs[i + 1] && subs[1..][i + 1] == subs[i + 2];
            }
          }
        }
        assert Unambiguous(subs[1..]) ==> Unambiguous(subs) by {
          forall i | 0 <= i < |subs| - 1 && Unambiguous(subs[1..])
            ensures !(Open(subs[i].value) && subs[i + 1].id == SUBELEM_FRAGMENT)
          {
            if i > 0 {
              assert subs[1..][i - 1] == subs[i] && subs[1..][i] == subs[i + 1];
            }
          }
        }
        assert Merged(subs) == [subs[0]] + Merged(subs[1..]);
        assert subs == [subs[0]] + subs[1..];
        assert Merged(subs)[1..] == Merged(subs[1..]);
      } else {
        assert |t.rest| < |subs[1..]| by { SwallowShortens(Open(subs[0].value), subs[1..]); }
        assert Open(subs[0].value) && subs[0 + 1].id == SUBELEM_FRAGMENT;
      }
    }
  }

  lemma {:induction false} SwallowShortens(open: bool, subs: seq<Element>)
    ensures Swallow(open, subs).rest == subs || |Swallow(open, subs).rest| < |subs|
  {
  }

  /** Every list of subelements, of any lengths, comes back whole and untruncated exactly when it
      is unambiguous; in particular whenever no subelement is itself numbered 254. */
  lemma {:induction false} SubelementRoundTrip(subs: seq<Element>)
    ensures SubelementsOf(Encode(FragmentedAll(subs, SUBELEM_FRAGMENT))) == SubWalk(Merged(subs), false)
    ensures SubelementsOf(Encode(FragmentedAll(subs, SUBELEM_FRAGMENT))) == SubWalk(subs, false)
            <==> Unambiguous(subs)
    ensures (forall s :: s in subs ==> s.id != SUBELEM_FRAGMENT) ==> Unambiguous(subs)
  {
    var ps := FragmentedAll(subs, SUBELEM_FRAGMENT);
    assert Encode(ps)[0..] == Encode(ps);
    SubelementsOfEncoded(Encode(ps), 0, ps);
    JoinFragmented(subs);
    MergedIsIdentity(subs);
  }
}
