/** Octets, integers on the wire, and the few types shared by every component. */
module Wire {

  type Byte = x: int | 0 <= x < 256
  type Bytes = seq<Byte>

  datatype Option<+T> = None | Some(value: T)

  /** The two implementations of one thing, where both are modelled. */
  datatype Host = Python | C

  const U32_LIMIT: nat := 0x1_0000_0000

  /** Little-endian integers, the "<H", "<I" and "<Q" of Python's struct and le32/le64 in C. */
  function Le16(b: Bytes, at: nat): (v: nat)
    requires at + 2 <= |b|
    ensures v < 65536
  {
    b[at] as int + 256 * (b[at + 1] as int)
  }

  function Le(b: Bytes, at: nat, n: nat): nat
    requires at + n <= |b|
    decreases |b| - at
  {
    if n == 0 then 0 else b[at] as int + 256 * Le(b, at + 1, n - 1)
  }

  function Pow256(n: nat): nat {
    if n == 0 then 1 else 256 * Pow256(n - 1)
  }

  /** 1 << n. */
  function Pow2(n: nat): (p: nat)
    ensures p > 0
  {
    if n == 0 then 1 else 2 * Pow2(n - 1)
  }

  lemma {:induction false} LeBound(b: Bytes, at: nat, n: nat)
    requires at + n <= |b|
    ensures Le(b, at, n) < Pow256(n)
    decreases n
  {
    if n > 0 {
      LeBound(b, at + 1, n - 1);
    }
  }

  function Le32(b: Bytes, at: nat): (v: nat)
    requires at + 4 <= |b|
    ensures v < U32_LIMIT
  {
    LeBound(b, at, 4);
    Le(b, at, 4)
  }

  function Le64(b: Bytes, at: nat): nat
    requires at + 8 <= |b|
  {
    Le(b, at, 8)
  }

  /** Equal octets make equal integers. */
  lemma {:induction false} LeAgree(a: Bytes, i: nat, b: Bytes, j: nat, n: nat)
    requires i + n <= |a| && j + n <= |b| && a[i..i + n] == b[j..j + n]
    ensures Le(a, i, n) == Le(b, j, n)
    decreases n
  {
    if n > 0 {
      assert a[i] == a[i..i + n][0] && b[j] == b[j..j + n][0];
      assert a[i + 1..i + n] == a[i..i + n][1..] && b[j + 1..j + n] == b[j..j + n][1..];
      LeAgree(a, i + 1, b, j + 1, n - 1);
    }
  }

  /** Big-endian 32-bit integer, the ">I" of the patch header. */
  function Be32(b: Bytes, at: nat): (v: nat)
    requires at + 4 <= |b|
    ensures v < U32_LIMIT
  {
    16777216 * (b[at] as int) + 65536 * (b[at + 1] as int) + 256 * (b[at + 2] as int) + b[at + 3] as int
  }

  function PutLe16(v: nat): (b: Bytes)
    requires v < 65536
    ensures |b| == 2 && Le16(b, 0) == v
  {
    [v % 256, v / 256]
  }

  function PutLe(v: nat, n: nat): (b: Bytes)
    ensures |b| == n
  {
    if n == 0 then [] else [v % 256] + PutLe(v / 256, n - 1)
  }

  lemma {:induction false} LePut(v: nat, n: nat)
    requires v < Pow256(n)
    ensures Le(PutLe(v, n), 0, n) == v
  {
    if n > 0 {
      var rest := PutLe(v / 256, n - 1);
      LePut(v / 256, n - 1);
      assert PutLe(v, n)[1..n] == rest[0..n - 1];
      LeAgree(PutLe(v, n), 1, rest, 0, n - 1);
    }
  }

  /** The octets of a buffer are the encoding of the integer read from them. */
  lemma {:induction false} PutOfLe(b: Bytes, at: nat, n: nat)
    requires at + n <= |b|
    ensures PutLe(Le(b, at, n), n) == b[at..at + n]
    decreases n
  {
    if n > 0 {
      PutOfLe(b, at + 1, n - 1);
      Digit(b[at], Le(b, at + 1, n - 1), 256);
      assert b[at..at + n] == [b[at]] + b[at + 1..at + n];
    }
  }

  function PutLe32(v: nat): (b: Bytes)
    requires v < U32_LIMIT
    ensures |b| == 4 && Le32(b, 0) == v
  {
    LePut(v, 4);
    PutLe(v, 4)
  }

  /** A bit field of a register word: (word >> shift) & (2^width - 1), both given as powers. */
  function Field(word: nat, shiftPow: nat, widthPow: nat): (f: nat)
    requires shiftPow > 0 && widthPow > 0
    ensures f < widthPow
  {
    (word / shiftPow) % widthPow
  }

  predicate Bit(word: nat, pow: nat)
    requires pow > 0
  {
    (word / pow) % 2 == 1
  }

  /** Python's b[lo:hi], which clamps both ends. */
  function Slice<T>(b: seq<T>, lo: nat, hi: nat): seq<T> {
    if lo >= |b| || hi <= lo then [] else if hi <= |b| then b[lo..hi] else b[lo..]
  }

  function Zeros(n: nat): (z: Bytes)
    ensures |z| == n && forall i :: 0 <= i < n ==> z[i] == 0
  {
    seq(n, _ => 0)
  }

  lemma {:induction false} MulGap(base: nat, a: nat, b: nat)
    requires a < b
    ensures base * a + base <= base * b
  {
    var d: nat := b - a - 1;
    assert base * (a + 1 + d) == base * a + base + base * d;
  }

  lemma {:induction false} UniqueQuotient(base: nat, q: nat, r: nat, p: nat, s: nat)
    requires r < base && s < base && base * q + r == base * p + s
    ensures q == p && r == s
  {
    if q < p {
      MulGap(base, q, p);
    } else if p < q {
      MulGap(base, p, q);
    }
  }

  lemma {:induction false} Digit(low: nat, high: nat, base: nat)
    requires low < base
    ensures (low + base * high) / base == high && (low + base * high) % base == low
  {
    var x := low + base * high;
    UniqueQuotient(base, x / base, x % base, high, low);
  }

  // Sequence facts the verifier needs to be told; each is proved once, in isolation.

  lemma {:induction false} Assoc<T>(a: seq<T>, b: seq<T>, c: seq<T>)
    ensures a + (b + c) == (a + b) + c
  {
  }

  lemma {:induction false} Nil<T>(a: seq<T>)
    ensures a + [] == a && [] + a == a
  {
  }

  lemma {:induction false} TailOfConcat<T>(a: seq<T>, b: seq<T>)
    requires a != []
    ensures (a + b)[0] == a[0] && (a + b)[1..] == a[1..] + b
  {
  }

  lemma {:induction false} DropOne<T>(a: seq<T>, k: nat)
    requires k < |a|
    ensures a[k..] == [a[k]] + a[k + 1..]
  {
  }

  lemma {:induction false} SplitAt<T>(a: seq<T>, n: nat)
    requires n <= |a|
    ensures a[..n] + a[n..] == a
  {
  }

  lemma {:induction false} SliceOfSlice<T>(a: seq<T>, at: nat, n: nat, i: nat, j: nat)
    requires i <= j <= n && at + n <= |a|
    ensures a[at..at + n][i..j] == a[at + i..at + j]
  {
    var whole := a[at..at + n];
    assert forall k :: i <= k < j ==> whole[k] == a[at + k];
    assert |whole[i..j]| == |a[at + i..at + j]|;
    forall k | 0 <= k < j - i
      ensures whole[i..j][k] == a[at + i..at + j][k]
    {
      assert whole[i..j][k] == whole[i + k];
    }
  }
}
