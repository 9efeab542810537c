/** Guard on the group-5 descriptor bit (c/mt7921_radio.c): every read may fail, and a write may be
    lost or land whatever it reports. */
module G5Guard {
  import opened Wire

  type Word = w: nat | w < U32_LIMIT

  /** Bit 23 of a register word, and the word without it. */
  predicate G5(w: Word) {
    Bit(w, 0x80_0000)
  }

  function Others(w: Word): nat {
    w % 0x80_0000 + 0x100_0000 * (w / 0x100_0000)
  }

  /** (w & ~G5_BIT) | bit. */
  function With(w: Word, bit: bool): (v: Word)
    ensures Others(v) == Others(w) && G5(v) == bit
  {
    if G5(w) == bit then w else if bit then w + 0x80_0000 else w - 0x80_0000
  }

  lemma {:induction false} Parts(w: Word)
    ensures w == Others(w) + (if G5(w) then 0x80_0000 else 0)
  {
    var q := w / 0x80_0000;
    assert w == w % 0x80_0000 + 0x80_0000 * q && w / 0x100_0000 == q / 2;
  }

  /** A word is its bit 23 and the rest. */
  lemma {:induction false} TwoParts(v: Word, w: Word)
    ensures v == w <==> Others(v) == Others(w) && G5(v) == G5(w)
  {
    Parts(v);
    Parts(w);
  }

  /** Whether an access reports success, and whether a write reaches the register. */
  datatype Access = Access(ok: bool, landed: bool)

  class Register {
    const plan: nat -> Access
    var value: Word
    var accesses: nat

    constructor (plan: nat -> Access, value: Word)
      ensures this.plan == plan && this.value == value && accesses == 0
    {
      this.plan, this.value, accesses := plan, value, 0;
    }

    method Read() returns (v: Option<Word>)
      modifies this`accesses
      ensures v.Some? ==> v.value == value
      ensures accesses == old(accesses) + 1
    {
      v := if plan(accesses).ok then Some(value) else None;
      accesses := accesses + 1;
    }

    method Write(v: Word) returns (ok: bool)
      modifies this
      ensures value == old(value) || value == v
      ensures accesses == old(accesses) + 1
    {
      if plan(accesses).landed {
        value := v;
      }
      ok := plan(accesses).ok;
      accesses := accesses + 1;
    }
  }

  /** `before` is the register as it was when the guard was last inactive. */
  predicate Keeps(active: bool, saved: bool, value: Word, before: Word) {
    Others(value) == Others(before) && if active then saved == G5(before) else value == before
  }

  class Guard {
    var active: bool
    var savedBit: bool

    constructor ()
      ensures !active
    {
      active, savedBit := false, false;
    }

    /** Refused while active, so the saved bit is never overwritten. */
    method Begin(hw: Register, ghost before: Word) returns (ok: bool)
      requires Keeps(active, savedBit, hw.value, before)
      modifies this, hw
      ensures Keeps(active, savedBit, hw.value, before)
      ensures old(active) ==> !ok && active && savedBit == old(savedBit) && hw.value == old(hw.value)
                              && hw.accesses == old(hw.accesses)
      ensures ok ==> active && G5(hw.value)
      ensures !active ==> hw.value == old(hw.value)
    {
      if active {
        return false;
      }
      var v := hw.Read();
      if v.None? {
        return false;
      }
      savedBit := G5(v.value);
      active := true;
      var written := hw.Write(With(v.value, true));
      if !written {
        return false;
      }
      var check := hw.Read();
      ok := check.Some? && G5(check.value);
    }

    /** It reports success only when inactive, and then the register is as before. */
    method Restore(hw: Register, ghost before: Word) returns (ok: bool)
      requires Keeps(active, savedBit, hw.value, before)
      modifies this, hw
      ensures Keeps(active, savedBit, hw.value, before) && savedBit == old(savedBit)
      ensures ok <==> !active
      ensures !old(active) ==> ok && hw.value == old(hw.value) && hw.accesses == old(hw.accesses)
    {
      if !active {
        return true;
      }
      var v := hw.Read();
      if v.None? {
        return false;
      }
      var written := hw.Write(With(v.value, savedBit));
      if !written {
        return false;
      }
      var check := hw.Read();
      if check.None? || G5(check.value) != savedBit {
        return false;
      }
      TwoParts(hw.value, before);
      active := false;
      ok := true;
    }
  }

  datatype Call = CallBegin | CallRestore

  /** Any calls in any order over any faults: whenever the guard is inactive the register is what
      it was at the start, and its other bits are what they were throughout. */
  method Run(calls: seq<Call>, plan: nat -> Access, initial: Word) returns (active: bool, final: Word, oks: seq<bool>)
    ensures Others(final) == Others(initial)
    ensures !active ==> final == initial
    ensures |oks| == |calls|
    ensures calls != [] && calls[|calls| - 1].CallRestore? ==> (oks[|calls| - 1] <==> !active)
    ensures calls != [] && calls[|calls| - 1].CallBegin? && oks[|calls| - 1] ==> active && G5(final)
  {
    var hw := new Register(plan, initial);
    var guard := new Guard();
    oks := [];
    for i := 0 to |calls|
      invariant fresh(hw) && fresh(guard) && |oks| == i
      invariant Keeps(guard.active, guard.savedBit, hw.value, initial)
      invariant i > 0 && calls[i - 1].CallRestore? ==> (oks[i - 1] <==> !guard.active)
      invariant i > 0 && calls[i - 1].CallBegin? && oks[i - 1] ==> guard.active && G5(hw.value)
    {
      var ok;
      match calls[i] {
        case CallBegin => ok := guard.Begin(hw, initial);
        case CallRestore => ok := guard.Restore(hw, initial);
      }
      oks := oks + [ok];
    }
    active, final := guard.active, hw.value;
  }
}
