/** The integer part of `ppc::random`: uniform draws from a closed range of
    64-bit or 32-bit integers, built from the 32-bit outputs of the engine with
    rejection of the incomplete last bucket. All C++ unsigned arithmetic is
    written out modulo 2^64. */
module PpcRandom {
  import opened Strs

  const TWO32: int := 0x1_0000_0000
  const TWO63: int := 0x8000_0000_0000_0000
  const TWO64: int := 0x1_0000_0000_0000_0000
  /** `std::numeric_limits<uint64_t>::max()`. */
  const UINT64_MAX: nat := TWO64 - 1
  /** `uint64_t(std::numeric_limits<int64_t>::max()) + 1`. */
  const OFFSET: nat := TWO63

  predicate IsU64(x: int) { 0 <= x < TWO64 }
  predicate IsI64(x: int) { -TWO63 <= x < TWO63 }

  /** Every engine output is a 32-bit value. */
  predicate AllU32(draws: seq<nat>)
  {
    forall i :: 0 <= i < |draws| ==> draws[i] < TWO32
  }

  /** The value of an expression of type `uint64_t`: `x` modulo 2^64, written
      by cases for the sums and differences of two 64-bit values that occur. */
  function Wrap(x: int): (r: nat)
    ensures r < TWO64
  {
    if 0 <= x < TWO64 then x
    else if TWO64 <= x < 2 * TWO64 then x - TWO64
    else if -TWO64 <= x < 0 then x + TWO64
    else x % TWO64
  }

  /** The cases agree with reduction modulo 2^64. */
  lemma WrapIsMod(x: int)
    ensures Wrap(x) == x % TWO64
  {
    if TWO64 <= x < 2 * TWO64 {
      DivModUnique(x, TWO64, 1, x - TWO64);
    } else if -TWO64 <= x < 0 {
      DivModUnique(x, TWO64, -1, x + TWO64);
    } else if 0 <= x < TWO64 {
      DivModUnique(x, TWO64, 0, x);
    }
  }

  /** `Wrap` takes away a whole number of 2^64's. */
  lemma WrapOffset(x: int) returns (q: int)
    ensures Wrap(x) == x - q * TWO64
  {
    if 0 <= x < TWO64 {
      q := 0;
    } else if TWO64 <= x < 2 * TWO64 {
      q := 1;
    } else if -TWO64 <= x < 0 {
      q := -1;
    } else {
      WrapIsMod(x);
      q := x / TWO64;
    }
  }

  lemma DivModUnique(n: int, d: int, q: int, r: int)
    requires d > 0 && 0 <= r < d && n == q * d + r
    ensures n / d == q && n % d == r
  {
    var q', r' := n / d, n % d;
    assert q' * d + r' == q * d + r;
    if q' > q {
      assert (q' - q) * d == r - r';
      MulMonotone(1, q' - q, d);
    } else if q' < q {
      assert (q - q') * d == r' - r;
      MulMonotone(1, q - q', d);
    }
  }

  /** `((uint64_t)rng() << 32) | (uint64_t)rng()`. C++ leaves the order of the
      two calls unspecified; the model takes the left call first, so the first
      draw is the high word. The low word is below 2^32, so the OR is an
      addition. */
  function Combine(hi: nat, lo: nat): (r: nat)
    requires hi < TWO32 && lo < TWO32
    ensures r < TWO64
  {
    hi * TWO32 + lo
  }

  // ---------------------------------------------------------------------------
  // get_uint64
  // ---------------------------------------------------------------------------

  /** The rejection test of the loop: the bucket `begin .. begin + length - 1`
      of the draw does not wrap around in 64-bit arithmetic. */
  predicate Accepted(bits: nat, length: nat)
    requires bits < TWO64 && 1 <= length
  {
    var begin := Wrap((bits / length) * length);
    begin <= Wrap(begin + (length - 1))
  }

  /** The largest multiple of `length` that fits in 64 bits. */
  function Limit(length: nat): (l: nat)
    requires 1 <= length <= TWO64
    ensures TWO64 - length < l <= TWO64
  {
    FloorDiv(TWO64, length);
    (TWO64 / length) * length
  }

  /** The multiple of `d` at or below `n` is less than `d` away from it. */
  lemma FloorDiv(n: nat, d: nat)
    requires 1 <= d
    ensures (n / d) * d <= n < (n / d) * d + d
  {
    assert n == (n / d) * d + n % d;
  }

  /** The bucket starting at `begin` wraps around exactly when it reaches 2^64. */
  lemma BucketWraps(begin: nat, length: nat)
    requires begin < TWO64 && 1 <= length <= TWO64
    ensures Wrap(begin) <= Wrap(Wrap(begin) + (length - 1)) <==> begin + length <= TWO64
  {
    assert Wrap(begin) == begin;
  }

  /** The test accepts a draw exactly when its whole bucket lies below 2^64. */
  lemma AcceptedIffComplete(bits: nat, length: nat)
    requires bits < TWO64 && 1 <= length <= TWO64
    ensures Accepted(bits, length) <==> (bits / length) * length + length <= TWO64
  {
    FloorDiv(bits, length);
    BucketWraps((bits / length) * length, length);
  }

  /** A bucket lies wholly below a bound that is a multiple of `d` exactly
      when its draw lies below that multiple. */
  lemma BucketBelow(n: nat, d: nat, m: nat)
    requires 1 <= d
    ensures (n / d) * d + d <= m * d <==> n < m * d
  {
    FloorDiv(n, d);
    var q := n / d;
    if q + 1 <= m {
      MulMonotone(q + 1, m, d);
    } else {
      MulMonotone(m, q, d);
    }
  }

  /** Accepted draws are exactly those below the largest multiple of `length`
      that fits in 64 bits, so every residue comes from equally many draws. */
  lemma AcceptedIffBelowLimit(bits: nat, length: nat)
    requires bits < TWO64 && 1 <= length <= TWO64
    ensures Accepted(bits, length) <==> bits < Limit(length)
  {
    var q, m := bits / length, TWO64 / length;
    AcceptedIffComplete(bits, length);
    FloorDiv(TWO64, length);
    BucketBelow(bits, length, m);
    FitsBelowMultiple(q, m, length, TWO64);
    assert Limit(length) == m * length;
  }

  /** With `m * d` the largest multiple of `d` up to `t`, a multiple of `d`
      plus `d` fits under `t` exactly when it fits under `m * d`. */
  lemma FitsBelowMultiple(q: nat, m: nat, d: nat, t: nat)
    requires 1 <= d && m * d <= t < m * d + d
    ensures q * d + d <= t <==> q * d + d <= m * d
  {
    assert q * d + d == (q + 1) * d;
    assert m * d + d == (m + 1) * d;
    if q + 1 <= m {
      MulMonotone(q + 1, m, d);
    } else {
      MulMonotone(m + 1, q + 1, d);
    }
  }

  lemma MulMonotone(x: int, y: int, k: nat)
    requires x <= y
    ensures x * k <= y * k
  {
  }

  /** What one call of `get_uint64(a, b)` returns and which engine outputs remain.
      `None` stands for an engine stream that ran out before a draw was accepted. */
  datatype Draw<T> = Draw(value: Option<T>, rest: seq<nat>)

  /** The distribution `get_uint64(a, b)` is meant to realise, as a function of
      the engine outputs: over the full range the first two outputs as they are;
      otherwise the first pair below the largest multiple of the range length,
      reduced modulo that length and added to `a`. */
  function UInt64Spec(a: nat, b: nat, draws: seq<nat>): (d: Draw<nat>)
    requires a <= b < TWO64 && AllU32(draws)
    decreases |draws|
  {
    if |draws| < 2 then Draw(None, draws)
    else
      var bits := Combine(draws[0], draws[1]);
      if a == 0 && b == UINT64_MAX then Draw(Some(bits), draws[2..])
      else if bits < Limit(b - a + 1) then Draw(Some(Pick(a, b, bits)), draws[2..])
      else UInt64Spec(a, b, draws[2..])
  }

  /** One round of the rejection loop against the specification: an accepted
      draw gives the picked value, a rejected one leaves the rest of the
      stream to decide. */
  lemma RejectionStep(a: nat, b: nat, draws: seq<nat>)
    requires a <= b < TWO64 && AllU32(draws) && |draws| >= 2 && !(a == 0 && b == UINT64_MAX)
    ensures AllU32(draws[2..])
    ensures var bits, length := Combine(draws[0], draws[1]), b - a + 1;
      1 <= length < TWO64 &&
      (Accepted(bits, length) ==> UInt64Spec(a, b, draws) == Draw(Some(Wrap(a + bits % length)), draws[2..])) &&
      (!Accepted(bits, length) ==> UInt64Spec(a, b, draws) == UInt64Spec(a, b, draws[2..]))
  {
    var bits, length := Combine(draws[0], draws[1]), b - a + 1;
    AcceptedIffBelowLimit(bits, length);
    assert Wrap(a + bits % length) == Pick(a, b, bits);
  }

  /** The value picked from an accepted draw. */
  function Pick(a: nat, b: nat, bits: nat): (r: nat)
    requires a <= b
    ensures a <= r <= b
  {
    a + bits % (b - a + 1)
  }

  /** Every value drawn lies in `[a, b]`. */
  lemma {:induction false} UInt64SpecInRange(a: nat, b: nat, draws: seq<nat>)
    requires a <= b < TWO64 && AllU32(draws)
    ensures var d := UInt64Spec(a, b, draws); d.value.Some? ==> a <= d.value.value <= b
    decreases |draws|
  {
    if |draws| >= 2 && !(a == 0 && b == UINT64_MAX) && Combine(draws[0], draws[1]) >= Limit(b - a + 1) {
      UInt64SpecInRange(a, b, draws[2..]);
    }
  }

  /** The outputs left over are a suffix of the stream: a draw only consumes. */
  lemma {:induction false} UInt64SpecConsumes(a: nat, b: nat, draws: seq<nat>)
    requires a <= b < TWO64 && AllU32(draws)
    ensures var d := UInt64Spec(a, b, draws); |d.rest| <= |draws| && d.rest == draws[|draws| - |d.rest|..]
    decreases |draws|
  {
    if |draws| >= 2 && !(a == 0 && b == UINT64_MAX) && Combine(draws[0], draws[1]) >= Limit(b - a + 1) {
      UInt64SpecConsumes(a, b, draws[2..]);
      var d := UInt64Spec(a, b, draws[2..]);
      assert draws[2..][|draws[2..]| - |d.rest|..] == draws[|draws| - |d.rest|..];
    }
  }

  /** Over the full range the two draws are the result, unchanged. */
  lemma FullRangeDraw(draws: seq<nat>)
    requires AllU32(draws) && |draws| >= 2
    ensures UInt64Spec(0, UINT64_MAX, draws) == Draw(Some(draws[0] * TWO32 + draws[1]), draws[2..])
  {
  }

  // ---------------------------------------------------------------------------
  // get_int64: the order-preserving offset
  // ---------------------------------------------------------------------------

  /** `uint64_t(x) + offset` for an int64 `x`. */
  function Shift(x: int): (u: nat)
    requires IsI64(x)
    ensures u < TWO64
  {
    Wrap(Wrap(x) + OFFSET)
  }

  /** `int64_t(c - offset)` for a uint64 `c` (two's complement). */
  function Unshift(c: nat): (x: int)
    requires c < TWO64
    ensures IsI64(x)
  {
    var u := Wrap(c - OFFSET);
    if u >= TWO63 then u - TWO64 else u
  }

  /** The offset adds 2^63, which maps the int64 range onto the uint64 range in
      the same order, and `Unshift` undoes it. */
  lemma ShiftOrder(x: int, y: int)
    requires IsI64(x) && IsI64(y)
    ensures Shift(x) == x + TWO63
    ensures x <= y <==> Shift(x) <= Shift(y)
    ensures Unshift(Shift(x)) == x
  {
    if x < 0 {
      assert Wrap(x) == x + TWO64;
    }
    if y < 0 {
      assert Wrap(y) == y + TWO64;
    }
  }

  lemma UnshiftShift(c: nat)
    requires c < TWO64
    ensures Shift(Unshift(c)) == c
    ensures Unshift(c) == c - TWO63
  {
    ShiftOrder(Unshift(c), Unshift(c));
  }

  /** `get_int64(a, b)`: the unsigned draw between the shifted bounds, shifted back. */
  function Int64Spec(a: int, b: int, draws: seq<nat>): (d: Draw<int>)
    requires IsI64(a) && IsI64(b) && a <= b && AllU32(draws)
  {
    ShiftOrder(a, b);
    UInt64SpecInRange(Shift(a), Shift(b), draws);
    var u := UInt64Spec(Shift(a), Shift(b), draws);
    Draw(if u.value.None? then None else Some(Unshift(u.value.value)), u.rest)
  }

  /** The two closing asserts of `get_int64` hold: the value lies in `[a, b]`. */
  lemma Int64SpecInRange(a: int, b: int, draws: seq<nat>)
    requires IsI64(a) && IsI64(b) && a <= b && AllU32(draws)
    ensures var d := Int64Spec(a, b, draws); d.value.Some? ==> a <= d.value.value <= b
  {
    ShiftOrder(a, b);
    UInt64SpecInRange(Shift(a), Shift(b), draws);
    var u := UInt64Spec(Shift(a), Shift(b), draws);
    if u.value.Some? {
      UnshiftShift(u.value.value);
    }
  }

  /** A 64-bit value that lies in the 32-bit range is unchanged by the
      narrowing to `uint32_t`. */
  lemma NarrowUnsigned(x: nat)
    requires x < TWO32
    ensures x % TWO32 == x
  {
  }

  /** A 64-bit value that lies in the 32-bit signed range is unchanged by the
      narrowing to `int32_t`. */
  function NarrowSigned(x: int): (r: int)
    requires -0x8000_0000 <= x < 0x8000_0000
    ensures r == x
  {
    var u := x % TWO32;
    assert u == if x < 0 then x + TWO32 else x;
    if u >= 0x8000_0000 then u - TWO32 else u
  }

  // ---------------------------------------------------------------------------
  // The generator
  // ---------------------------------------------------------------------------

  /** `ppc::random`, reduced to the outputs its `std::mt19937` engine will
      produce next. */
  class Random {
    var draws: seq<nat>

    ghost predicate Valid()
      reads this
    {
      AllU32(draws)
    }

    constructor (draws: seq<nat>)
      requires AllU32(draws)
      ensures Valid() && this.draws == draws
    {
      this.draws := draws;
    }

    /** `get_uint64(a, b)` with `assert(a <= b)` as its precondition. */
    method GetUInt64(a: nat, b: nat) returns (r: Option<nat>)
      requires Valid() && a <= b < TWO64
      modifies this
      ensures Valid()
      ensures Draw(r, draws) == UInt64Spec(a, b, old(draws))
      ensures r.Some? ==> a <= r.value <= b
    {
      UInt64SpecInRange(a, b, draws);
      if |draws| < 2 {
        return None;
      }
      if a == 0 && b == UINT64_MAX {
        var bits := Combine(draws[0], draws[1]);
        draws := draws[2..];
        return Some(bits);
      }
      var length := Wrap(b - a + 1);
      while |draws| >= 2
        invariant Valid() && length == b - a + 1
        invariant UInt64Spec(a, b, draws) == UInt64Spec(a, b, old(draws))
        decreases |draws|
      {
        RejectionStep(a, b, draws);
        var bits := Combine(draws[0], draws[1]);
        draws := draws[2..];
        var n := bits / length;
        var begin := Wrap(n * length);
        if begin <= Wrap(begin + (length - 1)) {
          return Some(Wrap(a + bits % length));
        }
      }
      return None;
    }

    /** `get_int64(a, b)`: its two closing asserts, `a <= res <= b`, hold. */
    method GetInt64(a: int, b: int) returns (r: Option<int>)
      requires Valid() && IsI64(a) && IsI64(b) && a <= b
      modifies this
      ensures Valid()
      ensures Draw(r, draws) == Int64Spec(a, b, old(draws))
      ensures r.Some? ==> a <= r.value <= b
    {
      Int64SpecInRange(a, b, draws);
      var ua := Wrap(a);
      var ub := Wrap(b);
      ShiftOrder(a, b);
      var lo, hi := Wrap(ua + OFFSET), Wrap(ub + OFFSET);
      assert lo == Shift(a) && hi == Shift(b);
      var c := GetUInt64(lo, hi);
      if c.None? {
        return None;
      }
      var u := Wrap(c.value - OFFSET);
      r := Some(if u >= TWO63 then u - TWO64 else u);
      assert r.value == Unshift(c.value);
    }

    /** `get_uint32(a, b)`: the 64-bit draw, narrowed to `uint32_t`, which
        changes nothing because it lies in [a, b]. */
    method GetUInt32(a: nat, b: nat) returns (r: Option<nat>)
      requires Valid() && a <= b < TWO32
      modifies this
      ensures Valid()
      ensures Draw(r, draws) == UInt64Spec(a, b, old(draws))
      ensures r.Some? ==> a <= r.value <= b
    {
      UInt64SpecInRange(a, b, draws);
      var c := GetUInt64(a, b);
      if c.None? {
        return None;
      }
      NarrowUnsigned(c.value);
      r := Some(c.value % TWO32);
    }

    /** `get_int32(a, b)`: the 64-bit signed draw, narrowed to `int32_t`, which
        changes nothing because it lies in [a, b]. */
    method GetInt32(a: int, b: int) returns (r: Option<int>)
      requires Valid() && -0x8000_0000 <= a <= b < 0x8000_0000
      modifies this
      ensures Valid()
      ensures Draw(r, draws) == Int64Spec(a, b, old(draws))
      ensures r.Some? ==> a <= r.value <= b
    {
      var c := GetInt64(a, b);
      if c.None? {
        return None;
      }
      r := Some(NarrowSigned(c.value));
    }
  }
}
