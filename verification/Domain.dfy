/** The pure business arithmetic of crates/commission-types/src/domain.rs: the split of
    a paid amount between beneficiaries and the apportionment of cumulative refunds. */
module Domain {
  import opened Wrappers
  import opened Errors
  import opened Sums

  const I64_MIN: int := -0x8000_0000_0000_0000
  const I64_MAX: int := 0x7FFF_FFFF_FFFF_FFFF
  const MAX_OPERATION_MINOR: int := 100_000_000_000_000

  predicate InI64(x: int) {
    I64_MIN <= x <= I64_MAX
  }

  /** Signed cents in the 64 bits the source stores them in. */
  type Money = x: int | InI64(x)

  // ---------------------------------------------------------------- fee split

  const BPS: int := 10_000
  const MAX_FREEZE_SECONDS: int := 31_536_000

  datatype Terms = Terms(
    rateBps: int,
    fixedMinor: Money,
    capMinor: Option<Money>,
    directBps: int,
    indirectBps: int,
    freezeSeconds: int)
  {
    predicate Valid() {
      && 0 <= rateBps <= BPS && 0 <= directBps <= BPS && 0 <= indirectBps <= BPS
      && directBps + indirectBps <= BPS
      && 0 <= fixedMinor <= MAX_OPERATION_MINOR
      && (capMinor.Some? ==> 0 <= capMinor.value <= MAX_OPERATION_MINOR)
      && 0 <= freezeSeconds <= MAX_FREEZE_SECONDS
    }
  }

  datatype Split = Split(feePool: int, merchant: int, platform: int, direct: int, indirect: int)

  predicate Positive(amount: int) {
    0 < amount <= MAX_OPERATION_MINOR
  }

  function Min(a: int, b: int): int {
    if a <= b then a else b
  }

  /** Basis points of an amount, rounded down. */
  function OfBps(of: int, bps: int): int {
    of * bps / BPS
  }

  /** `split`: the fee pool is taken from the paid amount, the referral shares from the pool. */
  function SplitPaid(paid: Money, base: Money, terms: Terms, direct: bool, indirect: bool): Outcome<Split> {
    if !Positive(paid) then Err(Invalid)
    else if base < 0 || base > paid then Err(Invalid)
    else if indirect && !direct then Err(Invalid)
    else if !terms.Valid() then Err(Invalid)
    else
      var rawFee := OfBps(base, terms.rateBps) + terms.fixedMinor;
      var cap := if terms.capMinor.Some? then Min(terms.capMinor.value, base) else base;
      var fee := Min(rawFee, cap);
      var first := if direct then OfBps(fee, terms.directBps) else 0;
      var second := if indirect then OfBps(fee, terms.indirectBps) else 0;
      Ok(Split(fee, paid - fee, fee - first - second, first, second))
  }

  /** `share` is the largest whole number of cents that is not above `bps` basis points of `of`. */
  ghost predicate IsFloorOfBps(share: int, of: int, bps: int) {
    share * BPS <= of * bps < (share + 1) * BPS
  }

  /** The fee pool is the rate plus the fixed fee, rounded down, but no more than base and cap. */
  ghost predicate FeeIsRight(fee: int, base: int, terms: Terms) {
    && 0 <= fee <= base && (terms.capMinor.Some? ==> fee <= terms.capMinor.value)
    && (fee - terms.fixedMinor) * BPS <= base * terms.rateBps
    && (fee == base || Some(fee) == terms.capMinor || IsFloorOfBps(fee - terms.fixedMinor, base, terms.rateBps))
  }

  /** `split` answers exactly on a valid request; the four parts are non-negative 64-bit
      amounts that add up to what was paid; the fee pool never exceeds the base, the cap, nor
      the rate plus the fixed fee, and falls short of base and cap only if it is the
      rounded-down rate plus the fixed fee; the referral shares are rounded down out of it. */
  lemma SplitSound(paid: Money, base: Money, terms: Terms, direct: bool, indirect: bool)
    ensures SplitPaid(paid, base, terms, direct, indirect).Ok?
            <==> Positive(paid) && 0 <= base <= paid && (indirect ==> direct) && terms.Valid()
    ensures SplitPaid(paid, base, terms, direct, indirect).Ok? ==>
              var s := SplitPaid(paid, base, terms, direct, indirect).value;
              && 0 <= s.merchant <= paid && 0 <= s.platform <= paid && 0 <= s.direct <= paid && 0 <= s.indirect <= paid
              && s.merchant + s.platform + s.direct + s.indirect == paid
              && s.platform + s.direct + s.indirect == s.feePool
              && FeeIsRight(s.feePool, base, terms)
              && (if direct then IsFloorOfBps(s.direct, s.feePool, terms.directBps) else s.direct == 0)
              && (if indirect then IsFloorOfBps(s.indirect, s.feePool, terms.indirectBps) else s.indirect == 0)
  {
    var r := SplitPaid(paid, base, terms, direct, indirect);
    if r.Ok? {
      OfBpsFloor(base, terms.rateBps);
      Scale(r.value.feePool - terms.fixedMinor, OfBps(base, terms.rateBps), BPS);
      OfBpsFloor(r.value.feePool, terms.directBps);
      OfBpsFloor(r.value.feePool, terms.indirectBps);
      TwoOfBps(r.value.feePool, terms.directBps, terms.indirectBps);
    }
  }

  lemma OfBpsFloor(of: int, bps: int)
    requires 0 <= of && 0 <= bps <= BPS
    ensures IsFloorOfBps(OfBps(of, bps), of, bps)
    ensures 0 <= OfBps(of, bps) <= of
  {
    FloorOf(of * bps, BPS);
    Scale(0, of, bps);
    FloorBelow(0, of * bps, BPS);
    Scale(bps, BPS, of);
    FloorAbove(of, of * bps, BPS);
  }

  lemma TwoOfBps(of: int, a: int, b: int)
    requires 0 <= of && 0 <= a && 0 <= b && a + b <= BPS
    ensures OfBps(of, a) + OfBps(of, b) <= of
  {
    FloorOf(of * a, BPS);
    FloorOf(of * b, BPS);
    Scale(a + b, BPS, of);
    assert of * a + of * b == (a + b) * of;
  }

  // ---------------------------------------------------------------- refunds

  /** One step of the nested partition: the floor of `r * s / t`. */
  function Part(r: int, s: int, t: int): int
    requires t > 0
  {
    r * s / t
  }

  predicate NonNegative(s: seq<int>) {
    forall i :: 0 <= i < |s| ==> s[i] >= 0
  }

  /** What each slot has given back once `refund` of the total has been refunded:
      slot by slot, the floor of the remaining refund's share of the remaining
      total, the last slot taking what is left. */
  function Apportion(shares: seq<int>, refund: int): (parts: seq<int>)
    requires NonNegative(shares)
    requires 0 <= refund <= Total(shares)
    ensures |parts| == |shares|
  {
    if shares == [] then []
    else
      TotalNonNegative(shares[1..]);
      var total := Total(shares);
      var part := if total == 0 then 0 else Part(refund, shares[0], total);
      PartBounds(refund, shares[0], total);
      [part] + Apportion(shares[1..], refund - part)
  }

  lemma ApportionStep(shares: seq<int>, refund: int) returns (q: int, rest: seq<int>)
    requires NonNegative(shares) && shares != [] && 0 <= refund <= Total(shares)
    ensures NonNegative(shares[1..]) && Total(shares) == shares[0] + Total(shares[1..])
    ensures q == if Total(shares) == 0 then 0 else Part(refund, shares[0], Total(shares))
    ensures |shares| == 1 && Total(shares) > 0 ==> q == refund
    ensures 0 <= q <= shares[0] && 0 <= refund - q <= Total(shares[1..])
    ensures rest == Apportion(shares[1..], refund - q)
    ensures Apportion(shares, refund) == [q] + rest
  {
    TotalNonNegative(shares[1..]);
    PartBounds(refund, shares[0], Total(shares));
    q := if Total(shares) == 0 then 0 else Part(refund, shares[0], Total(shares));
    rest := Apportion(shares[1..], refund - q);
    if |shares| == 1 && Total(shares) > 0 {
      WholePart(refund, shares[0]);
    }
  }

  /** The parts add up to the refund, and no slot gives back more than its share. */
  lemma {:induction false} ApportionConserves(shares: seq<int>, refund: int)
    requires NonNegative(shares)
    requires 0 <= refund <= Total(shares)
    ensures Total(Apportion(shares, refund)) == refund
    ensures forall i :: 0 <= i < |shares| ==> 0 <= Apportion(shares, refund)[i] <= shares[i]
  {
    if shares != [] {
      var q, rest := ApportionStep(shares, refund);
      ApportionConserves(shares[1..], refund - q);
      assert ([q] + rest)[1..] == rest;
      assert forall i :: 1 <= i < |shares| ==> ([q] + rest)[i] == rest[i - 1] && shares[i] == shares[1..][i - 1];
    }
  }

  lemma {:induction false} TotalNonNegative(s: seq<int>)
    requires NonNegative(s)
    ensures Total(s) >= 0
    ensures forall i :: 0 <= i < |s| ==> s[i] <= Total(s)
  {
    if s != [] {
      TotalNonNegative(s[1..]);
      assert forall i :: 1 <= i < |s| ==> s[i] == s[1..][i - 1];
    }
  }

  lemma Cancel(a: int, b: int, k: int)
    requires k > 0 && a * k < b * k
    ensures a < b
  {
  }

  lemma CancelWeak(a: int, b: int, k: int)
    requires k > 0 && a * k <= b * k
    ensures a <= b
  {
  }

  lemma Scale(a: int, b: int, k: int)
    requires k >= 0 && a <= b
    ensures a * k <= b * k
  {
  }

  /** The floor of `x / t`, said without division. */
  lemma FloorOf(x: int, t: int)
    requires t > 0
    ensures (x / t) * t <= x < (x / t) * t + t
  {
  }

  /** The floor of `x / t` is the largest multiplier that keeps below `x`. */
  lemma FloorBelow(q: int, x: int, t: int)
    requires t > 0 && q * t <= x
    ensures q <= x / t
  {
    FloorOf(x, t);
    Cancel(q, x / t + 1, t);
  }

  lemma FloorAbove(q: int, x: int, t: int)
    requires t > 0 && x <= q * t
    ensures x / t <= q
  {
    FloorOf(x, t);
    CancelWeak(x / t, q, t);
  }

  lemma PartBounds(r: int, s: int, t: int)
    requires 0 <= s <= t && 0 <= r <= t
    ensures t > 0 ==> 0 <= Part(r, s, t) <= s && Part(r, s, t) <= r && r - Part(r, s, t) <= t - s
  {
    if t > 0 {
      Scale(0, r, s);
      FloorBelow(0, r * s, t);
      Scale(r, t, s);
      FloorAbove(s, r * s, t);
      Scale(s, t, r);
      FloorAbove(r, r * s, t);
      Complement(r, s, t);
      FloorBelow(r - t + s, r * s, t);
    }
  }

  lemma Complement(r: int, s: int, t: int)
    requires s <= t && r <= t
    ensures (r - t + s) * t <= r * s
  {
    Scale(0, t - r, t - s);
    assert (t - r) * (t - s) == t * t - t * s - r * t + r * s;
    assert (r - t + s) * t == r * t - t * t + s * t;
  }

  /** Refunding more never shrinks a part nor what is left for the later slots. */
  lemma PartMonotone(r: int, r': int, s: int, t: int)
    requires t > 0 && 0 <= s <= t && 0 <= r <= r' <= t
    ensures Part(r, s, t) <= Part(r', s, t)
    ensures r - Part(r, s, t) <= r' - Part(r', s, t)
  {
    var q, q', d := Part(r, s, t), Part(r', s, t), r' - r;
    FloorOf(r * s, t);
    FloorOf(r' * s, t);
    Scale(r, r', s);
    FloorBelow(q, r' * s, t);
    Scale(s, t, d);
    assert d * s == r' * s - r * s;
    assert (q' - d) * t == q' * t - d * t;
    FloorBelow(q' - d, r * s, t);
  }

  /** Every slot gives back at least as much, and at most the whole difference more,
      when the cumulative refund grows. */
  lemma {:induction false} ApportionMonotone(shares: seq<int>, r: int, r': int)
    requires NonNegative(shares)
    requires 0 <= r <= r' <= Total(shares)
    ensures forall i :: 0 <= i < |shares| ==>
              Apportion(shares, r)[i] <= Apportion(shares, r')[i] <= Apportion(shares, r)[i] + (r' - r)
  {
    if shares != [] {
      TotalNonNegative(shares[1..]);
      if Total(shares) > 0 {
        PartMonotone(r, r', shares[0], Total(shares));
      }
      var q, rest := ApportionStep(shares, r);
      var q', rest' := ApportionStep(shares, r');
      ApportionMonotone(shares[1..], r - q, r' - q');
    }
  }

  /** Nothing refunded takes nothing; refunding everything gives back exactly the shares. */
  lemma {:induction false} ApportionEnds(shares: seq<int>)
    requires NonNegative(shares)
    ensures Total(shares) >= 0
    ensures Apportion(shares, Total(shares)) == shares
    ensures forall i :: 0 <= i < |shares| ==> Apportion(shares, 0)[i] == 0
  {
    TotalNonNegative(shares);
    ApportionConserves(shares, Total(shares));
    ApportionConserves(shares, 0);
    EqualTotals(Apportion(shares, Total(shares)), shares);
    TotalNonNegative(Apportion(shares, 0));
  }

  /** Sequences that are ordered slot by slot and have the same total are equal. */
  lemma {:induction false} EqualTotals(a: seq<int>, b: seq<int>)
    requires |a| == |b| && forall i :: 0 <= i < |a| ==> a[i] <= b[i]
    ensures Total(a) <= Total(b)
    ensures Total(a) == Total(b) ==> a == b
  {
    if a != [] {
      assert forall i :: 0 <= i < |a| - 1 ==> a[1..][i] == a[i + 1] && b[1..][i] == b[i + 1];
      EqualTotals(a[1..], b[1..]);
      if Total(a) == Total(b) {
        assert a == [a[0]] + a[1..] && b == [b[0]] + b[1..];
      }
    }
  }

  /** How far slot `j`, holding `part`, may be from the exact share `r * s / t`, in
      cents: never a whole cent below, never above in slot 0, and above by less than
      `j` cents in a later slot. All sides are multiplied by `t`. */
  ghost predicate WithinDrift(part: int, r: int, s: int, t: int, j: nat) {
    && part * t > r * s - t
    && part * t <= r * s + j * t
    && (j > 0 ==> part * t < r * s + j * t)
  }

  /** The rounding-drift bound of the sequential apportionment. */
  lemma {:induction false} RoundingDrift(shares: seq<int>, r: int)
    requires NonNegative(shares) && Total(shares) > 0
    requires 0 <= r <= Total(shares)
    ensures forall j :: 0 <= j < |shares| ==> WithinDrift(Apportion(shares, r)[j], r, shares[j], Total(shares), j)
  {
    DriftFrom(shares, 0, r, r, Total(shares));
  }

  /** The bound for the slots from `j` on: `rest` is what is still to be refunded there,
      and `rest * t - r * Total(suffix)` is the excess carried over from slots before `j`. */
  lemma {:induction false} DriftFrom(suffix: seq<int>, j: nat, rest: int, r: int, t: int)
    requires NonNegative(suffix) && t > 0 && 0 <= rest <= Total(suffix) <= t && 0 <= r <= t
    requires 0 <= rest * t - r * Total(suffix) <= j * t
    requires j > 0 ==> rest * t - r * Total(suffix) < j * t
    ensures forall k :: 0 <= k < |suffix| ==> WithinDrift(Apportion(suffix, rest)[k], r, suffix[k], t, j + k)
  {
    if suffix != [] {
      var total, s := Total(suffix), suffix[0];
      TotalNonNegative(suffix[1..]);
      var q, tail := ApportionStep(suffix, rest);
      if total > 0 {
        FloorOf(rest * s, total);
        DriftHead(q, rest, s, total, r, t, rest * t - r * total, rest * s - q * total);
      }
      assert (j + 1) * t == j * t + t;
      assert WithinDrift(q, r, s, t, j);
      DriftFrom(suffix[1..], j + 1, rest - q, r, t);
      forall k | 0 <= k < |suffix|
        ensures WithinDrift(Apportion(suffix, rest)[k], r, suffix[k], t, j + k)
      {
        if k > 0 {
          assert suffix[k] == suffix[1..][k - 1] && ([q] + tail)[k] == tail[k - 1];
        }
      }
    }
  }

  /** One slot: with excess `e` carried in and remainder `m` of its floor, it keeps at
      most `e` above its exact share and passes on less than `e + t`. */
  lemma DriftHead(q: int, rest: int, s: int, total: int, r: int, t: int, e: int, m: int)
    requires 0 <= s <= total && 0 < total && 0 < t
    requires e == rest * t - r * total && 0 <= e
    requires m == rest * s - q * total && 0 <= m < total
    ensures -t < q * t - r * s <= e
    ensures 0 <= (rest - q) * t - r * (total - s) < e + t
  {
    DriftIdentities(q, rest, s, total, r, t);
    Scale(s, total, e);
    Scale(0, e, s);
    Scale(0, m, t);
    Scale(m + 1, total, t);
    assert (m + 1) * t == m * t + t;
    DriftCancel(q * t - r * s, (rest - q) * t - r * (total - s), e, m, s, total, t);
  }

  lemma DriftIdentities(q: int, rest: int, s: int, total: int, r: int, t: int)
    ensures (q * t - r * s) * total == s * (rest * t - r * total) - (rest * s - q * total) * t
    ensures (rest - q) * t - r * (total - s) == (rest * t - r * total) - (q * t - r * s)
  {
  }

  lemma DriftCancel(above: int, next: int, e: int, m: int, s: int, total: int, t: int)
    requires total > 0 && next == e - above
    requires above * total == s * e - m * t
    requires 0 <= m * t && m * t + t <= total * t && 0 <= e * s && s * e <= total * e
    requires t > 0
    ensures -t < above <= e
    ensures 0 <= next < e + t
  {
    assert (-t) * total == -(total * t);
    Cancel(-t, above, total);
    CancelWeak(above, e, total);
  }

  /** What the source accepts for apportioning; it refuses everything else. */
  predicate Refundable(shares: seq<int>, refunded: int) {
    shares != [] && NonNegative(shares) && Total(shares) > 0 && 0 <= refunded <= Total(shares)
  }

  /** `cumulative_refund`: succeeds exactly on refundable input, then computes `Apportion`,
      and never reaches its conversion error. */
  method CumulativeRefund(shares: seq<Money>, refunded: Money) returns (r: Outcome<seq<int>>)
    ensures r == if Refundable(shares, refunded) then Ok(Apportion(shares, refunded)) else Err(Invalid)
  {
    if shares == [] || exists i :: 0 <= i < |shares| && shares[i] < 0 {
      return Err(Invalid);
    }
    var total := 0;
    for i := 0 to |shares|
      invariant total + Total(shares[i..]) == Total(shares)
    {
      assert shares[i..][1..] == shares[i + 1..];
      total := total + shares[i];
    }
    if total <= 0 || refunded < 0 || refunded > total {
      return Err(Invalid);
    }
    var remainingTotal, remainingRefund := total, refunded as int;
    var result: seq<int> := [];
    ghost var goal := Apportion(shares, refunded);
    for index := 0 to |shares|
      invariant remainingTotal == Total(shares[index..])
      invariant 0 <= remainingRefund <= remainingTotal
      invariant |result| == index
      invariant result + Apportion(shares[index..], remainingRefund) == goal
    {
      ghost var suffix := shares[index..];
      ghost var q, rest := ApportionStep(suffix, remainingRefund);
      ConcatStep(result, q, rest);
      assert goal == (result + [q]) + rest;
      assert suffix[1..] == shares[index + 1..];
      var share := shares[index];
      var part;
      if remainingTotal == 0 {
        part := 0;
      } else if index + 1 == |shares| {
        part := remainingRefund;
      } else {
        part := Part(remainingRefund, share, remainingTotal);
      }
      assert part == q;
      if !InI64(part) {
        return Err(Internal);
      }
      result := result + [part];
      remainingRefund := remainingRefund - part;
      assert rest == Apportion(shares[index + 1..], remainingRefund);
      remainingTotal := remainingTotal - share;
    }
    assert result == goal;
    return Ok(result);
  }

  lemma ConcatStep<T>(a: seq<T>, x: T, b: seq<T>)
    ensures a + ([x] + b) == (a + [x]) + b
  {
  }

  lemma WholePart(r: int, s: int)
    requires s > 0
    ensures Part(r, s, s) == r
  {
    FloorBelow(r, r * s, s);
    FloorAbove(r, r * s, s);
  }
}
