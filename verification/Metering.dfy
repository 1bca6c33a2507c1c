// The metered charge (packages/x402-arc/src/metering.ts).
module Metering {
  import opened Prelude

  // A number as JavaScript has it: the size limit is typed so and nothing checks it.
  datatype Number = NaN | Infinite(negative: bool) | Finite(value: real)

  // Price terms as BigInt reads them; None is a string BigInt refuses. A missing error price
  // reads as zero, and so does one BigInt refuses.
  datatype Pricing = Pricing(
    base: Option<int>,
    perKB: Option<int>,
    computeMultiplier: Option<int>,
    maxResponseBytes: Option<Number>,
    errorPrice: Option<int>)

  predicate IsInteger(r: real) { r == r.Floor as real }

  // The response size, or the limit where it bites; None where BigInt refuses what Math.min gives.
  function EffectiveBytes(p: Pricing, bytes: nat): Option<int> {
    if p.maxResponseBytes.None? then Some(bytes)
    else
      match p.maxResponseBytes.value
      case NaN => None
      case Infinite(negative) => if negative then None else Some(bytes)
      case Finite(limit) =>
        if bytes as real <= limit then Some(bytes)
        else if IsInteger(limit) then Some(limit.Floor)
        else None
  }

  // The terms read and the size limit, if it bites at this size, is an integer.
  predicate Readable(p: Pricing, bytes: nat) {
    p.base.Some? && p.perKB.Some? && p.computeMultiplier.Some? && EffectiveBytes(p, bytes).Some?
  }

  predicate NonNegative(p: Pricing) {
    && p.base.Some? && p.perKB.Some? && p.computeMultiplier.Some?
    && 0 <= p.base.value && 0 <= p.perKB.value && 0 <= p.computeMultiplier.value
    && (p.maxResponseBytes.Some? && p.maxResponseBytes.value.Finite? ==> 0.0 <= p.maxResponseBytes.value.value)
  }

  // BigInt division truncates toward zero.
  function TruncDiv(a: int, b: int): int
    requires 0 < b
  {
    if 0 <= a then a / b else -(-a / b)
  }

  function CeilDiv(a: int, b: int): int
    requires 0 < b
  {
    TruncDiv(a + b - 1, b)
  }

  // None is the error a malformed price term throws.
  function ComputeMeteredAmount(p: Pricing, bytes: nat, ms: int, cap: int): Option<int> {
    if !Readable(p, bytes) then None
    else
      var computed := p.base.value
                    + p.perKB.value * CeilDiv(EffectiveBytes(p, bytes).value, 1024)
                    + p.computeMultiplier.value * CeilDiv(ms, 100);
      Some(if computed < cap then computed else cap)
  }

  // u is the least number of units of the given size that cover the quantity.
  ghost predicate IsLeastCover(u: int, quantity: int, unit: int) {
    0 <= u && quantity <= u * unit && forall v | 0 <= v && quantity <= v * unit :: u <= v
  }

  lemma CeilIsLeastCover(quantity: nat, unit: int)
    requires 0 < unit
    ensures IsLeastCover(CeilDiv(quantity, unit), quantity, unit)
  {
    var u := CeilDiv(quantity, unit);
    var top := quantity + unit - 1;
    assert top == unit * u + top % unit;
    assert quantity <= u * unit;
    forall v | 0 <= v && quantity <= v * unit ensures u <= v {
      if v < u {
        ScaleUp(v + 1, u, unit);
        assert false;
      }
    }
  }

  lemma ScaleUp(x: int, y: int, k: int)
    requires x <= y && 0 <= k
    ensures k * x <= k * y && x * k <= y * k
  {
  }

  // A negative quantity, from a negative limit or a clock set back, is a deduction: as many whole
  // units as fit into what it lacks beyond the first unit but one.
  ghost predicate IsUnits(u: int, quantity: int, unit: int) {
    if 0 <= quantity then IsLeastCover(u, quantity, unit)
    else
      var short := 1 - quantity - unit;
      && u <= 0 && (u == 0 || -u * unit <= short)
      && forall v | 0 <= v && v * unit <= short :: v <= -u
  }

  lemma CeilIsUnits(quantity: int, unit: int)
    requires 0 < unit
    ensures IsUnits(CeilDiv(quantity, unit), quantity, unit)
  {
    if 0 <= quantity {
      CeilIsLeastCover(quantity, unit);
    } else {
      var short := 1 - quantity - unit;
      if short <= 0 {
        NoWholeUnit(quantity + unit - 1, unit);
        forall v | 0 <= v && v * unit <= short ensures v <= 0 {
          ScaleUp(0, v, unit);
          if 1 <= v {
            ScaleUp(1, v, unit);
          }
        }
      } else {
        var w := short / unit;
        assert short == unit * w + short % unit;
        assert CeilDiv(quantity, unit) == -w;
        WholeUnits(short, unit);
      }
    }
  }

  lemma NoWholeUnit(a: int, unit: int)
    requires 0 <= a < unit
    ensures TruncDiv(a, unit) == 0
  {
  }

  lemma WholeUnits(short: nat, unit: int)
    requires 0 < unit
    ensures 0 <= short / unit && (short / unit) * unit <= short
    ensures forall v | 0 <= v && v * unit <= short :: v <= short / unit
  {
    var w := short / unit;
    assert short == unit * w + short % unit;
    forall v | 0 <= v && v * unit <= short ensures v <= w {
      if w < v {
        ScaleUp(w + 1, v, unit);
        assert false;
      }
    }
  }

  lemma UnitsUnique(u: int, w: int, quantity: int, unit: int)
    requires IsUnits(u, quantity, unit) && IsUnits(w, quantity, unit)
    ensures u == w
  {
  }

  // The quantity that is paid for: all bytes, or as many as a finite limit allows.
  predicate PaidFor(limit: Option<Number>, bytes: nat, quantity: int) {
    if limit.Some? && limit.value.Finite? then
      && quantity <= bytes && quantity as real <= limit.value.value
      && (quantity == bytes || quantity as real == limit.value.value)
    else quantity == bytes
  }

  lemma EffectiveIsPaidFor(p: Pricing, bytes: nat, quantity: int)
    requires EffectiveBytes(p, bytes).Some?
    ensures PaidFor(p.maxResponseBytes, bytes, quantity) <==> quantity == EffectiveBytes(p, bytes).value
  {
  }

  // The charge is the smaller of the signed cap and the price of the least units that cover the
  // response, up to the limit, and the time.
  lemma ChargeIsExact(p: Pricing, bytes: nat, ms: int, cap: int, quantity: int, size: int, compute: int)
    requires Readable(p, bytes) && PaidFor(p.maxResponseBytes, bytes, quantity)
    requires IsUnits(size, quantity, 1024) && IsUnits(compute, ms, 100)
    ensures var exact := p.base.value + p.perKB.value * size + p.computeMultiplier.value * compute;
            ComputeMeteredAmount(p, bytes, ms, cap) == Some(if exact < cap then exact else cap)
  {
    hide IsUnits;
    EffectiveIsPaidFor(p, bytes, quantity);
    CeilIsUnits(quantity, 1024);
    CeilIsUnits(ms, 100);
    UnitsUnique(size, CeilDiv(quantity, 1024), quantity, 1024);
    UnitsUnique(compute, CeilDiv(ms, 100), ms, 100);
  }

  lemma CeilMonotone(a: int, b: int, unit: int)
    requires 0 <= a <= b && 0 < unit
    ensures 0 <= CeilDiv(a, unit) <= CeilDiv(b, unit)
  {
    CeilIsLeastCover(a, unit);
    CeilIsLeastCover(b, unit);
  }

  // A non-negative price that reads at a size reads at every smaller one, and the bytes that count
  // only grow.
  lemma EffectiveMonotone(p: Pricing, bytes: nat, bytes': nat)
    requires NonNegative(p) && bytes <= bytes' && Readable(p, bytes')
    ensures Readable(p, bytes)
    ensures 0 <= EffectiveBytes(p, bytes).value <= EffectiveBytes(p, bytes').value
  {
  }

  // More bytes, more time or a larger cap never lower the charge, which stays between zero and the cap.
  lemma ChargeMonotone(p: Pricing, bytes: nat, ms: nat, cap: nat, bytes': nat, ms': nat, cap': nat)
    requires NonNegative(p) && Readable(p, bytes') && bytes <= bytes' && ms <= ms' && cap <= cap'
    ensures Readable(p, bytes)
    ensures 0 <= ComputeMeteredAmount(p, bytes, ms, cap).value <= cap
    ensures ComputeMeteredAmount(p, bytes, ms, cap).value <= ComputeMeteredAmount(p, bytes', ms', cap').value
  {
    EffectiveMonotone(p, bytes, bytes');
    hide EffectiveBytes, CeilDiv, NonNegative;
    var b, b' := EffectiveBytes(p, bytes).value, EffectiveBytes(p, bytes').value;
    CeilMonotone(b, b', 1024);
    CeilMonotone(ms, ms', 100);
    ScaleUp(CeilDiv(b, 1024), CeilDiv(b', 1024), p.perKB.value);
    ScaleUp(0, CeilDiv(b, 1024), p.perKB.value);
    ScaleUp(CeilDiv(ms, 100), CeilDiv(ms', 100), p.computeMultiplier.value);
    ScaleUp(0, CeilDiv(ms, 100), p.computeMultiplier.value);
  }

  // Bytes beyond the response limit are free, or refused alike.
  lemma ChargeSaturates(p: Pricing, limit: real, bytes: nat, bytes': nat, ms: int, cap: int)
    requires p.maxResponseBytes == Some(Finite(limit)) && limit <= bytes as real && limit <= bytes' as real
    ensures ComputeMeteredAmount(p, bytes, ms, cap) == ComputeMeteredAmount(p, bytes', ms, cap)
  {
    if bytes as real == limit {
      assert limit.Floor == bytes;
    }
    if bytes' as real == limit {
      assert limit.Floor == bytes';
    }
  }

  // Whether a limit is refused where it meets a response of this size.
  predicate LimitRefused(limit: Number, bytes: nat) {
    match limit
    case NaN => true
    case Infinite(negative) => negative
    case Finite(r) => !IsInteger(r) && r < bytes as real
  }

  // A price cannot be read exactly for a malformed term, a limit that is NaN or minus infinity, or a
  // fraction that the response exceeds.
  lemma UnreadableExactly(p: Pricing, bytes: nat, ms: int, cap: int)
    ensures ComputeMeteredAmount(p, bytes, ms, cap).None? <==>
              || p.base.None? || p.perKB.None? || p.computeMultiplier.None?
              || (p.maxResponseBytes.Some? && LimitRefused(p.maxResponseBytes.value, bytes))
  {
  }
}
