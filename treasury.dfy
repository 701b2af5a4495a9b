/** The grant treasury ledger: three balances (total, invested, available), an ordered
    list of investment positions, an append-only list of grant allocations, an
    append-only yield log and a yield-claim counter, as the contract keeps them.
    The model follows the contract as written: realised yield reaches `available`
    but never `total`, liquidity raising credits the requested amount, a grant
    allocation writes back a balance read before liquidity was raised, and a
    withdrawal debits `available` a second time. */
module GrantTreasury {
  import opened Common

  /** 365 days of 86400 seconds. */
  const SecondsPerYear: nat := 365 * 24 * 60 * 60
  /** The fixed annual yield, 5%, in basis points. */
  const Apy: nat := 500
  /** 100% in basis points. */
  const BasisPoints: nat := 10000

  datatype TreasuryConfig = TreasuryConfig(
    admin: Address,
    liquidityPool: Address,
    minLiquidityRatio: nat,   // basis points of `total` that must stay available
    autoInvestThreshold: int,
    yieldClaimFrequency: nat)

  datatype InvestmentPosition = InvestmentPosition(
    amount: int,
    pool: Address,
    investedAt: nat,
    lastYieldClaim: nat,
    accumulatedYield: int)

  datatype AllocationStatus = Pending | Approved | Disbursed | Expired

  datatype GrantAllocation = GrantAllocation(
    grantee: Address,
    amount: int,
    allocatedAt: nat,
    status: AllocationStatus)

  datatype YieldRecord = YieldRecord(amount: int, claimedAt: nat, pool: Address, apy: nat)

  /** The reasons the contract panics. */
  datatype TreasuryError =
    | AlreadyInitialized
    | NotInitialized
    | InvalidAmount          // "Amount must be positive"
    | Unauthorized           // caller is not the admin
    | InsufficientBalance    // invest more than available
    | LiquidityBreach        // invest would leave less than the minimum liquidity
    | InvalidIndex           // no position at that index
    | ExceedsPrincipal       // divest more than the position holds
    | InvalidAllocationId
    | NotGrantee             // withdrawal by someone else than the grantee
    | NotWithdrawable        // allocation is not Approved

  /* ---------------------------------------------------------------------------
     Yield accrual
     ------------------------------------------------------------------------- */

  /** Simple 5% yield over `elapsed` seconds: the elapsed fraction of a year is first
      floored to basis points, then the yield is floored to whole units. */
  function Yield(principal: int, elapsed: nat): (y: int)
    ensures elapsed == 0 ==> y == 0
    ensures principal >= 0 ==> y >= 0
    ensures elapsed * BasisPoints < SecondsPerYear ==> y == 0
  {
    if elapsed == 0 then 0
    else
      var timeFraction := (elapsed * BasisPoints) / SecondsPerYear;
      assert principal >= 0 ==> principal * Apy * timeFraction >= 0;
      TruncDiv(principal * Apy * timeFraction, BasisPoints * BasisPoints)
  }

  /** The yield a position has earned since its last claim. The host clock never runs
      backwards, so `now` is never before the position's last claim. */
  function CalculateYield(p: InvestmentPosition, now: nat): int
    requires p.lastYieldClaim <= now
  {
    Yield(p.amount, now - p.lastYieldClaim)
  }

  lemma {:induction false} YieldMonotoneInElapsed(principal: int, e1: nat, e2: nat)
    requires principal >= 0 && e1 <= e2
    ensures Yield(principal, e1) <= Yield(principal, e2)
  {
    if e1 > 0 {
      var m := principal * Apy;
      var f1, f2 := (e1 * BasisPoints) / SecondsPerYear, (e2 * BasisPoints) / SecondsPerYear;
      FloorDivMonotone(e1 * BasisPoints, e2 * BasisPoints, SecondsPerYear);
      MulLeftMonotone(m, f1, f2);
      TruncDivMonotone(m * f1, m * f2, BasisPoints * BasisPoints);
    }
  }

  lemma {:induction false} YieldMonotoneInPrincipal(p1: int, p2: int, elapsed: nat)
    requires p1 <= p2
    ensures Yield(p1, elapsed) <= Yield(p2, elapsed)
  {
    if elapsed > 0 {
      var f := (elapsed * BasisPoints) / SecondsPerYear;
      MulRightMonotone(p1 * Apy, p2 * Apy, f);
      TruncDivMonotone(p1 * Apy * f, p2 * Apy * f, BasisPoints * BasisPoints);
    }
  }

  /** Dafny's floor division of non-negative numbers is monotone in the dividend. */
  lemma FloorDivMonotone(a: nat, c: nat, b: int)
    requires a <= c && b > 0
    ensures a / b <= c / b
  {
    DivBounds(a, b);
    DivBounds(c, b);
    var qa, qc := a / b, c / b;
    assert (qa - qc) * b == qa * b - qc * b;
    FactorBelowOne(qa - qc, b);
  }

  lemma MulLeftMonotone(m: int, a: int, c: int)
    requires m >= 0 && a <= c
    ensures m * a <= m * c
  {
    assert m * c - m * a == m * (c - a);
  }

  lemma MulRightMonotone(a: int, c: int, k: int)
    requires a <= c && k >= 0
    ensures a * k <= c * k
  {
    assert c * k - a * k == (c - a) * k;
  }

  /** Over exactly one year the yield is the 5% of the principal, rounded toward zero. */
  lemma YieldOverOneYear(principal: int)
    ensures Yield(principal, SecondsPerYear) == TruncDiv(principal * Apy, BasisPoints)
  {
    var x := principal * Apy;
    assert (SecondsPerYear * BasisPoints) / SecondsPerYear == BasisPoints;
    assert principal * Apy * BasisPoints == x * BasisPoints;
    TruncDivScaled(x, BasisPoints, BasisPoints);
  }

  /** The one-year value for a principal of 1000 is 50. */
  lemma YieldOfThousandOverOneYear()
    ensures Yield(1000, SecondsPerYear) == 50
  {
    YieldOverOneYear(1000);
  }

  /** Scaling dividend and divisor by the same factor leaves the truncated quotient. */
  lemma TruncDivScaled(x: int, k: int, b: int)
    requires k > 0 && b > 0
    ensures TruncDiv(x * k, b * k) == TruncDiv(x, b)
  {
    var q := TruncDiv(x, b);
    var bk := b * k;
    ScaledProducts(q, b, k);
    if x >= 0 {
      MulRightMonotone(q * b, x, k);
      MulStrict(x, q * b + b, k);
      QuotientUnique(x * k, bk, q, TruncDiv(x * k, bk));
    } else {
      MulRightMonotone(x, q * b, k);
      MulStrict(q * b - b, x, k);
      NegativeScaled(x, k);
      QuotientUniqueNeg(x * k, bk, q, TruncDiv(x * k, bk));
    }
  }

  /** The products the scaled quotient bounds are made of. */
  lemma ScaledProducts(q: int, b: int, k: int)
    ensures (q * b) * k == q * (b * k)
    ensures (q * b + b) * k == q * (b * k) + b * k
    ensures (q * b - b) * k == q * (b * k) - b * k
  {
  }

  lemma NegativeScaled(x: int, k: int)
    requires x < 0 && k > 0
    ensures x * k < 0
  {
    MulStrict(x, 0, k);
  }

  lemma MulStrict(a: int, c: int, k: int)
    requires a < c && k > 0
    ensures a * k < c * k
  {
    assert c * k - a * k == (c - a) * k;
  }

  lemma QuotientUnique(a: int, b: int, q: int, qa: int)
    requires b > 0 && a >= 0 && qa == TruncDiv(a, b)
    requires q * b <= a < q * b + b
    ensures qa == q
  {
    assert qa * b <= a < qa * b + b;
    assert (qa - q) * b == qa * b - q * b;
    FactorBelowOne(qa - q, b);
    FactorBelowOne(q - qa, b);
  }

  lemma QuotientUniqueNeg(a: int, b: int, q: int, qa: int)
    requires b > 0 && a < 0 && qa == TruncDiv(a, b)
    requires q * b - b < a <= q * b
    ensures qa == q
  {
    assert qa * b - b < a <= qa * b;
    assert (qa - q) * b == qa * b - q * b;
    FactorBelowOne(qa - q, b);
    FactorBelowOne(q - qa, b);
  }

  /* ---------------------------------------------------------------------------
     Positions
     ------------------------------------------------------------------------- */

  /** The host clock `now` is not behind any position's last yield claim. */
  predicate Accrues(ps: seq<InvestmentPosition>, now: nat) {
    forall i :: 0 <= i < |ps| ==> ps[i].lastYieldClaim <= now
  }

  /** Every open position holds a positive principal. */
  predicate Funded(ps: seq<InvestmentPosition>) {
    forall i :: 0 <= i < |ps| ==> ps[i].amount > 0
  }

  /** The principal held in a list of positions. */
  function Principal(ps: seq<InvestmentPosition>): int {
    if ps == [] then 0 else ps[0].amount + Principal(ps[1..])
  }

  /** The yield already realised into a list of positions. */
  function AccumulatedYield(ps: seq<InvestmentPosition>): int {
    if ps == [] then 0 else AccumulatedYield(ps[..|ps| - 1]) + ps[|ps| - 1].accumulatedYield
  }

  /** `get_accumulated_yield`: the sum of the positions' accumulated yields. */
  method SumAccumulatedYield(ps: seq<InvestmentPosition>) returns (totalYield: int)
    ensures totalYield == AccumulatedYield(ps)
  {
    totalYield := 0;
    for i := 0 to |ps|
      invariant totalYield == AccumulatedYield(ps[..i])
    {
      assert ps[..i + 1][..i] == ps[..i];
      totalYield := totalYield + ps[i].accumulatedYield;
    }
    assert ps[..|ps|] == ps;
  }

  lemma {:induction false} SameAmountsSamePrincipal(a: seq<InvestmentPosition>, b: seq<InvestmentPosition>)
    requires |a| == |b|
    requires forall i :: 0 <= i < |a| ==> a[i].amount == b[i].amount
    ensures Principal(a) == Principal(b)
  {
    if a != [] {
      SameAmountsSamePrincipal(a[1..], b[1..]);
    }
  }

  /* ---------------------------------------------------------------------------
     Raising liquidity (`ensure_liquidity`)
     ------------------------------------------------------------------------- */

  /** Where the walk over the positions stands: the positions kept so far (in order), the
      need still outstanding, the yield realised on the positions it divested from, and
      how many positions it divested from. */
  datatype LiquidityWalk = LiquidityWalk(
    kept: seq<InvestmentPosition>,
    remaining: int,
    yieldTaken: int,
    touched: nat)

  /** The walk of `ensure_liquidity` over the positions in order. While some need
      remains, a position gives up min(principal, need), the need also drops by that
      position's yield, and the position survives (with the yield added to its
      accumulated yield) only if some principal is left. Once the need is met, later
      positions are kept as they are. */
  function Walk(ps: seq<InvestmentPosition>, needed: int, now: nat): LiquidityWalk
    requires Accrues(ps, now)
  {
    if ps == [] then LiquidityWalk([], needed, 0, 0)
    else
      var w := Walk(ps[..|ps| - 1], needed, now);
      var p := ps[|ps| - 1];
      if w.remaining <= 0 then w.(kept := w.kept + [p])
      else
        var divest := Min(p.amount, w.remaining);
        var y := CalculateYield(p, now);
        var survivor := if divest < p.amount
          then [p.(amount := p.amount - divest, accumulatedYield := p.accumulatedYield + y)]
          else [];
        LiquidityWalk(w.kept + survivor, w.remaining - (divest + y), w.yieldTaken + y, w.touched + 1)
  }

  /** The loop of `ensure_liquidity`, with its running "remaining need". */
  method DivestForLiquidity(positions: seq<InvestmentPosition>, needed: int, now: nat)
    returns (kept: seq<InvestmentPosition>, remaining: int)
    requires Accrues(positions, now)
    ensures kept == Walk(positions, needed, now).kept
    ensures remaining == Walk(positions, needed, now).remaining
  {
    remaining := needed;
    kept := [];
    for i := 0 to |positions|
      invariant kept == Walk(positions[..i], needed, now).kept
      invariant remaining == Walk(positions[..i], needed, now).remaining
    {
      assert positions[..i + 1][..i] == positions[..i];
      var position := positions[i];
      if remaining <= 0 {
        kept := kept + [position];
      } else {
        var divestAmount := Min(position.amount, remaining);
        var yieldAmount := CalculateYield(position, now);
        remaining := remaining - (divestAmount + yieldAmount);
        if divestAmount < position.amount {
          kept := kept + [position.(amount := position.amount - divestAmount,
                                    accumulatedYield := position.accumulatedYield + yieldAmount)];
        }
      }
    }
    assert positions[..|positions|] == positions;
  }

  /** The need drops by exactly the principal taken out of the positions plus the yield
      realised on them: the invested balance is debited by `needed - remaining`,
      which therefore includes yield. */
  lemma {:induction false} WalkAccounting(ps: seq<InvestmentPosition>, needed: int, now: nat)
    requires Accrues(ps, now)
    ensures var w := Walk(ps, needed, now);
      needed - w.remaining == (Principal(ps) - Principal(w.kept)) + w.yieldTaken
  {
    if ps != [] {
      var init, p := ps[..|ps| - 1], ps[|ps| - 1];
      WalkAccounting(init, needed, now);
      var w := Walk(init, needed, now);
      assert ps == init + [p];
      PrincipalAppend(init, p);
      if w.remaining <= 0 {
        PrincipalAppend(w.kept, p);
      } else {
        var divest := Min(p.amount, w.remaining);
        var y := CalculateYield(p, now);
        if divest < p.amount {
          PrincipalAppend(w.kept, p.(amount := p.amount - divest, accumulatedYield := p.accumulatedYield + y));
        } else {
          assert w.kept + [] == w.kept;
        }
      }
    }
  }

  /** On funded positions the walk realises non-negative yield and takes out between
      zero and `needed` of principal. */
  lemma {:induction false} WalkBounds(ps: seq<InvestmentPosition>, needed: int, now: nat)
    requires Accrues(ps, now) && Funded(ps)
    ensures var w := Walk(ps, needed, now);
      && w.yieldTaken >= 0
      && 0 <= Principal(ps) - Principal(w.kept)
      && (needed >= 0 ==> Principal(ps) - Principal(w.kept) <= needed)
  {
    WalkAccounting(ps, needed, now);
    WalkRemainingBound(ps, needed, now);
    WalkTakesPrincipal(ps, needed, now);
  }

  /** The walk's running need never drops below minus the yield it realised. */
  lemma {:induction false} WalkRemainingBound(ps: seq<InvestmentPosition>, needed: int, now: nat)
    requires Accrues(ps, now) && Funded(ps)
    ensures var w := Walk(ps, needed, now);
      && w.yieldTaken >= 0
      && (needed >= 0 ==> w.remaining + w.yieldTaken >= 0)
  {
    if ps != [] {
      var init, p := ps[..|ps| - 1], ps[|ps| - 1];
      WalkRemainingBound(init, needed, now);
    }
  }

  /** Each step of the walk takes a non-negative amount of principal out. */
  lemma {:induction false} WalkTakesPrincipal(ps: seq<InvestmentPosition>, needed: int, now: nat)
    requires Accrues(ps, now) && Funded(ps)
    ensures 0 <= Principal(ps) - Principal(Walk(ps, needed, now).kept)
  {
    if ps != [] {
      var init, p := ps[..|ps| - 1], ps[|ps| - 1];
      WalkTakesPrincipal(init, needed, now);
      var w := Walk(init, needed, now);
      assert ps == init + [p];
      PrincipalAppend(init, p);
      assert p.amount > 0;
      if w.remaining <= 0 {
        PrincipalAppend(w.kept, p);
        assert Walk(ps, needed, now).kept == w.kept + [p];
      } else {
        var divest := Min(p.amount, w.remaining);
        var y := CalculateYield(p, now);
        if divest < p.amount {
          var q := p.(amount := p.amount - divest, accumulatedYield := p.accumulatedYield + y);
          PrincipalAppend(w.kept, q);
          assert Walk(ps, needed, now).kept == w.kept + [q];
        } else {
          assert w.kept + [] == w.kept;
          assert Walk(ps, needed, now).kept == w.kept;
        }
      }
    }
  }

  /** No position the walk keeps is empty. */
  lemma {:induction false} WalkKeepsFunded(ps: seq<InvestmentPosition>, needed: int, now: nat)
    requires Accrues(ps, now) && Funded(ps)
    ensures Funded(Walk(ps, needed, now).kept)
  {
    if ps != [] {
      WalkKeepsFunded(ps[..|ps| - 1], needed, now);
    }
  }

  /** Once the need is met, every later position is kept unchanged and in order, and
      the need, realised yield and count of positions divested from stay as they are. */
  lemma {:induction false} WalkStopsOnceMet(ps: seq<InvestmentPosition>, rest: seq<InvestmentPosition>,
                                            needed: int, now: nat)
    requires Accrues(ps, now) && Accrues(ps + rest, now)
    requires Walk(ps, needed, now).remaining <= 0
    ensures Walk(ps + rest, needed, now) == Walk(ps, needed, now).(kept := Walk(ps, needed, now).kept + rest)
  {
    var w := Walk(ps, needed, now);
    if rest == [] {
      assert ps + rest == ps;
    } else {
      var init, last := rest[..|rest| - 1], rest[|rest| - 1];
      assert ps + rest == (ps + init) + [last];
      assert (ps + rest)[..|ps + rest| - 1] == ps + init;
      assert Accrues(ps + init, now) by {
        forall q | q in ps + init ensures q.lastYieldClaim <= now {
          assert q in ps + rest;
        }
      }
      WalkStopsOnceMet(ps, init, needed, now);
      assert w.kept + init + [last] == w.kept + rest;
    }
  }

  /** Nothing needed, nothing done. */
  lemma WalkNothingNeeded(ps: seq<InvestmentPosition>, needed: int, now: nat)
    requires Accrues(ps, now) && needed <= 0
    ensures Walk(ps, needed, now) == LiquidityWalk(ps, needed, 0, 0)
  {
    assert [] + ps == ps;
    WalkStopsOnceMet([], ps, needed, now);
  }

  /* ---------------------------------------------------------------------------
     Claiming yield
     ------------------------------------------------------------------------- */

  /** A position after a claim: if it earned a positive yield, that yield is added to its
      accumulated yield and its last claim moves to `now`; otherwise it is unchanged. */
  function Settle(p: InvestmentPosition, now: nat): InvestmentPosition
    requires p.lastYieldClaim <= now
  {
    var y := CalculateYield(p, now);
    if y > 0 then p.(accumulatedYield := p.accumulatedYield + y, lastYieldClaim := now) else p
  }

  /** The yield records a claim appends: one per position with positive yield, in order. */
  function YieldRecords(ps: seq<InvestmentPosition>, now: nat): seq<YieldRecord>
    requires Accrues(ps, now)
  {
    if ps == [] then []
    else
      var p := ps[|ps| - 1];
      var y := CalculateYield(p, now);
      YieldRecords(ps[..|ps| - 1], now) + (if y > 0 then [YieldRecord(y, now, p.pool, Apy)] else [])
  }

  /** The sum of the positive per-position yields. */
  function PositiveYield(ps: seq<InvestmentPosition>, now: nat): int
    requires Accrues(ps, now)
  {
    if ps == [] then 0
    else
      var y := CalculateYield(ps[|ps| - 1], now);
      PositiveYield(ps[..|ps| - 1], now) + (if y > 0 then y else 0)
  }

  function RecordsTotal(rs: seq<YieldRecord>): int {
    if rs == [] then 0 else RecordsTotal(rs[..|rs| - 1]) + rs[|rs| - 1].amount
  }

  /** The loop of `claim_yield`: settles every position in place, appends a record per
      positive yield and keeps the running total. */
  method SettleAll(positions: seq<InvestmentPosition>, now: nat)
    returns (settled: seq<InvestmentPosition>, records: seq<YieldRecord>, totalYield: int)
    requires Accrues(positions, now)
    ensures |settled| == |positions|
    ensures forall i :: 0 <= i < |positions| ==> settled[i] == Settle(positions[i], now)
    ensures records == YieldRecords(positions, now)
    ensures totalYield == PositiveYield(positions, now)
  {
    settled := positions;
    records := [];
    totalYield := 0;
    for i := 0 to |positions|
      invariant |settled| == |positions|
      invariant forall j :: 0 <= j < i ==> settled[j] == Settle(positions[j], now)
      invariant forall j :: i <= j < |positions| ==> settled[j] == positions[j]
      invariant records == YieldRecords(positions[..i], now)
      invariant totalYield == PositiveYield(positions[..i], now)
    {
      assert positions[..i + 1][..i] == positions[..i];
      var position := positions[i];
      var yieldAmount := CalculateYield(position, now);
      if yieldAmount > 0 {
        totalYield := totalYield + yieldAmount;
        settled := settled[i := position.(accumulatedYield := position.accumulatedYield + yieldAmount,
                                          lastYieldClaim := now)];
        records := records + [YieldRecord(yieldAmount, now, position.pool, Apy)];
      }
    }
    assert positions[..|positions|] == positions;
  }

  /** The records of a claim add up to the positive per-position yields. */
  lemma {:induction false} YieldRecordsTotal(ps: seq<InvestmentPosition>, now: nat)
    requires Accrues(ps, now)
    ensures RecordsTotal(YieldRecords(ps, now)) == PositiveYield(ps, now)
  {
    if ps != [] {
      var init := ps[..|ps| - 1];
      YieldRecordsTotal(init, now);
      var y := CalculateYield(ps[|ps| - 1], now);
      var rs := YieldRecords(ps, now);
      if y > 0 {
        assert rs[..|rs| - 1] == YieldRecords(init, now);
      } else {
        assert rs == YieldRecords(init, now);
      }
    }
  }

  /** A record a claim logs: a positive amount at the fixed rate, stamped `now`. */
  predicate ClaimRecord(r: YieldRecord, now: nat) {
    r.amount > 0 && r.apy == Apy && r.claimedAt == now
  }

  /** A claim logs at most one record per position, each a positive amount at the 500 bps
      rate stamped `now`. */
  lemma {:induction false} YieldRecordsShape(ps: seq<InvestmentPosition>, now: nat)
    requires Accrues(ps, now)
    ensures |YieldRecords(ps, now)| <= |ps|
    ensures forall r :: r in YieldRecords(ps, now) ==> ClaimRecord(r, now)
  {
    if ps != [] {
      var init := ps[..|ps| - 1];
      YieldRecordsShape(init, now);
    }
  }

  /** The positive per-position yields are never negative. */
  lemma {:induction false} PositiveYieldNonNegative(ps: seq<InvestmentPosition>, now: nat)
    requires Accrues(ps, now)
    ensures PositiveYield(ps, now) >= 0
  {
    if ps != [] {
      PositiveYieldNonNegative(ps[..|ps| - 1], now);
    }
  }

  /** A claim moves exactly the claimed total into the positions' accumulated yield, and
      leaves their principal alone. */
  lemma {:induction false} SettleAllAccounting(ps: seq<InvestmentPosition>, settled: seq<InvestmentPosition>, now: nat)
    requires Accrues(ps, now)
    requires |settled| == |ps|
    requires forall i :: 0 <= i < |ps| ==> settled[i] == Settle(ps[i], now)
    ensures AccumulatedYield(settled) == AccumulatedYield(ps) + PositiveYield(ps, now)
    ensures Principal(settled) == Principal(ps)
  {
    if ps != [] {
      var n := |ps| - 1;
      SettleAllAccounting(ps[..n], settled[..n], now);
    }
    SameAmountsSamePrincipal(settled, ps);
  }

  /* ---------------------------------------------------------------------------
     Admission checks
     ------------------------------------------------------------------------- */

  /** The liquidity `invest_idle_funds` keeps: floor(total * ratio / 10000). */
  function MinLiquidity(total: int, ratio: nat): int {
    TruncDiv(total * ratio, BasisPoints)
  }

  /** Why `invest_idle_funds` would panic, checked in the contract's order. */
  function InvestRejection(config: Option<TreasuryConfig>, caller: Address, amount: int,
                           available: int, total: int): (e: Option<TreasuryError>)
    ensures e.None? <==>
      && config.Some? && caller == config.value.admin
      && 0 < amount <= available
      && available - amount >= MinLiquidity(total, config.value.minLiquidityRatio)
  {
    if config.None? then Some(NotInitialized)
    else if caller != config.value.admin then Some(Unauthorized)
    else if amount <= 0 then Some(InvalidAmount)
    else if amount > available then Some(InsufficientBalance)
    else if available - amount < MinLiquidity(total, config.value.minLiquidityRatio) then Some(LiquidityBreach)
    else None
  }

  /** Why `divest_funds` would panic, checked in the contract's order. */
  function DivestRejection(config: Option<TreasuryConfig>, caller: Address, amount: int,
                           index: nat, positions: seq<InvestmentPosition>): (e: Option<TreasuryError>)
    ensures e.None? <==>
      && config.Some? && caller == config.value.admin
      && 0 < amount && index < |positions| && amount <= positions[index].amount
  {
    if config.None? then Some(NotInitialized)
    else if caller != config.value.admin then Some(Unauthorized)
    else if amount <= 0 then Some(InvalidAmount)
    else if index >= |positions| then Some(InvalidIndex)
    else if amount > positions[index].amount then Some(ExceedsPrincipal)
    else None
  }

  /** Why an admin-only call (`allocate_grant` with its amount, `claim_yield`) would panic. */
  function AdminRejection(config: Option<TreasuryConfig>, caller: Address): (e: Option<TreasuryError>)
    ensures e.None? <==> config.Some? && caller == config.value.admin
  {
    if config.None? then Some(NotInitialized)
    else if caller != config.value.admin then Some(Unauthorized)
    else None
  }

  /** Why `withdraw_grant` would panic, checked in the contract's order. */
  function WithdrawRejection(allocations: seq<GrantAllocation>, grantee: Address, id: nat): (e: Option<TreasuryError>)
    ensures e.None? <==>
      id < |allocations| && allocations[id].grantee == grantee && allocations[id].status == Approved
  {
    if id >= |allocations| then Some(InvalidAllocationId)
    else if allocations[id].grantee != grantee then Some(NotGrantee)
    else if allocations[id].status != Approved then Some(NotWithdrawable)
    else None
  }

  function OutcomeOf(e: Option<TreasuryError>): Outcome<TreasuryError> {
    if e.Some? then Fail(e.value) else Pass
  }

  /* ---------------------------------------------------------------------------
     The contract
     ------------------------------------------------------------------------- */

  class Treasury {
    var config: Option<TreasuryConfig>
    var totalBalance: int
    var investedBalance: int
    var availableBalance: int
    var positions: seq<InvestmentPosition>
    var allocations: seq<GrantAllocation>
    var yieldHistory: seq<YieldRecord>
    var lastYieldClaim: nat
    var yieldClaimCounter: nat

    /** Every open position holds principal: a position reaching zero is removed. */
    ghost predicate Valid()
      reads this
    {
      Funded(positions)
    }

    /** How far the ledger is from total == invested + available. */
    ghost function Drift(): int
      reads this
    {
      investedBalance + availableBalance - totalBalance
    }

    /** How far the invested balance is from the principal actually held in positions. */
    ghost function InvestedDrift(): int
      reads this
    {
      investedBalance - Principal(positions)
    }

    /** Fresh, uninitialised storage: every read falls back to 0 or an empty list. */
    constructor ()
      ensures Valid()
      ensures config == None
      ensures totalBalance == 0 && investedBalance == 0 && availableBalance == 0
      ensures positions == [] && allocations == [] && yieldHistory == []
      ensures lastYieldClaim == 0 && yieldClaimCounter == 0
    {
      config := None;
      totalBalance, investedBalance, availableBalance := 0, 0, 0;
      positions, allocations, yieldHistory := [], [], [];
      lastYieldClaim, yieldClaimCounter := 0, 0;
    }

    /** `initialize`: only once; sets the configuration and zeroes the ledger. */
    method Initialize(admin: Address, liquidityPool: Address, minLiquidityRatio: nat,
                      autoInvestThreshold: int, yieldClaimFrequency: nat)
      returns (r: Outcome<TreasuryError>)
      modifies this
      requires Valid()
      ensures Valid()
      ensures old(config).Some? ==> r == Fail(AlreadyInitialized) && unchanged(this)
      ensures old(config).None? ==>
        && r == Pass
        && config == Some(TreasuryConfig(admin, liquidityPool, minLiquidityRatio,
                                         autoInvestThreshold, yieldClaimFrequency))
        && totalBalance == 0 && investedBalance == 0 && availableBalance == 0
        && positions == [] && allocations == [] && yieldHistory == []
        && lastYieldClaim == 0 && yieldClaimCounter == 0
    {
      if config.Some? {
        return Fail(AlreadyInitialized);
      }
      config := Some(TreasuryConfig(admin, liquidityPool, minLiquidityRatio,
                                    autoInvestThreshold, yieldClaimFrequency));
      totalBalance, investedBalance, availableBalance := 0, 0, 0;
      positions, allocations, yieldHistory := [], [], [];
      lastYieldClaim, yieldClaimCounter := 0, 0;
      r := Pass;
    }

    /** `invest_idle_funds`: opens one position of `amount` from the available funds. */
    method InvestIdleFunds(caller: Address, amount: int, now: nat) returns (r: Outcome<TreasuryError>)
      requires Valid()
      modifies this
      ensures Valid()
      ensures r == OutcomeOf(InvestRejection(old(config), caller, amount, old(availableBalance), old(totalBalance)))
      ensures r.Fail? ==> unchanged(this)
      ensures r.Pass? ==>
        && positions == old(positions) + [InvestmentPosition(amount, old(config).value.liquidityPool, now, now, 0)]
        && investedBalance == old(investedBalance) + amount
        && availableBalance == old(availableBalance) - amount
        && availableBalance >= MinLiquidity(totalBalance, old(config).value.minLiquidityRatio)
        && Drift() == old(Drift()) && InvestedDrift() == old(InvestedDrift())
      ensures config == old(config) && totalBalance == old(totalBalance)
      ensures allocations == old(allocations) && yieldHistory == old(yieldHistory)
      ensures lastYieldClaim == old(lastYieldClaim) && yieldClaimCounter == old(yieldClaimCounter)
    {
      var rejection := InvestRejection(config, caller, amount, availableBalance, totalBalance);
      if rejection.Some? {
        return Fail(rejection.value);
      }
      var position := InvestmentPosition(amount, config.value.liquidityPool, now, now, 0);
      PrincipalAppend(positions, position);
      positions := positions + [position];
      investedBalance := investedBalance + amount;
      availableBalance := availableBalance - amount;
      r := Pass;
    }

    /** `auto_invest_idle_funds`: when the available funds reach the threshold, invests
        half of them (rounded toward zero) on the admin's behalf. */
    method AutoInvestIdleFunds(now: nat) returns (r: Outcome<TreasuryError>)
      requires Valid() && config.Some?
      modifies this
      ensures Valid()
      ensures old(availableBalance) < old(config).value.autoInvestThreshold ==> r == Pass && unchanged(this)
      ensures old(availableBalance) >= old(config).value.autoInvestThreshold ==>
        var half := TruncDiv(old(availableBalance), 2);
        && r == OutcomeOf(InvestRejection(old(config), old(config).value.admin, half,
                                          old(availableBalance), old(totalBalance)))
        && (r.Fail? ==> unchanged(this))
        && (r.Pass? ==>
              && positions == old(positions) + [InvestmentPosition(half, old(config).value.liquidityPool, now, now, 0)]
              && investedBalance == old(investedBalance) + half
              && availableBalance == old(availableBalance) - half
              && totalBalance == old(totalBalance)
              && config == old(config) && allocations == old(allocations)
              && yieldHistory == old(yieldHistory) && lastYieldClaim == old(lastYieldClaim)
              && yieldClaimCounter == old(yieldClaimCounter))
    {
      if availableBalance >= config.value.autoInvestThreshold {
        var investAmount := TruncDiv(availableBalance, 2);
        r := InvestIdleFunds(config.value.admin, investAmount, now);
      } else {
        r := Pass;
      }
    }

    /** `deposit`: credits `total` and `available`, then auto-invests; a failing
        auto-invest panics and so undoes the whole deposit. */
    method Deposit(from: Address, amount: int, now: nat) returns (r: Outcome<TreasuryError>)
      requires Valid()
      modifies this
      ensures Valid()
      ensures amount <= 0 ==> r == Fail(InvalidAmount) && unchanged(this)
      ensures amount > 0 && old(config).None? ==> r == Fail(NotInitialized) && unchanged(this)
      ensures amount > 0 && old(config).Some? ==>
        var cfg := old(config).value;
        var total, available := old(totalBalance) + amount, old(availableBalance) + amount;
        var half := TruncDiv(available, 2);
        if available < cfg.autoInvestThreshold then
          && r == Pass && config == old(config)
          && totalBalance == total && availableBalance == available
          && investedBalance == old(investedBalance) && positions == old(positions)
          && allocations == old(allocations) && yieldHistory == old(yieldHistory)
          && lastYieldClaim == old(lastYieldClaim) && yieldClaimCounter == old(yieldClaimCounter)
        else if InvestRejection(old(config), cfg.admin, half, available, total).Some? then
          r == Fail(InvestRejection(old(config), cfg.admin, half, available, total).value) && unchanged(this)
        else
          && r == Pass && config == old(config)
          && totalBalance == total && availableBalance == available - half
          && investedBalance == old(investedBalance) + half
          && positions == old(positions) + [InvestmentPosition(half, cfg.liquidityPool, now, now, 0)]
          && allocations == old(allocations) && yieldHistory == old(yieldHistory)
          && lastYieldClaim == old(lastYieldClaim) && yieldClaimCounter == old(yieldClaimCounter)
      ensures r.Pass? ==> Drift() == old(Drift()) && InvestedDrift() == old(InvestedDrift())
    {
      if amount <= 0 {
        return Fail(InvalidAmount);
      }
      if config.None? {
        return Fail(NotInitialized);
      }
      var savedTotal, savedAvailable := totalBalance, availableBalance;
      totalBalance := totalBalance + amount;
      availableBalance := availableBalance + amount;
      if availableBalance >= config.value.autoInvestThreshold {
        PrincipalAppend(positions, InvestmentPosition(TruncDiv(availableBalance, 2), config.value.liquidityPool, now, now, 0));
        r := AutoInvestIdleFunds(now);
        if r.Fail? {
          // the panic rolls the deposit back
          totalBalance, availableBalance := savedTotal, savedAvailable;
          return;
        }
      }
      r := Pass;
    }

    /** `divest_funds`: takes `amount` out of one position, realising its yield; an
        emptied position is removed and the later ones shift down. */
    method DivestFunds(caller: Address, amount: int, index: nat, now: nat) returns (r: Outcome<TreasuryError>)
      requires Valid() && Accrues(positions, now)
      modifies this
      ensures Valid()
      ensures r == OutcomeOf(DivestRejection(old(config), caller, amount, index, old(positions)))
      ensures r.Fail? ==> unchanged(this)
      ensures r.Pass? ==>
        var p := old(positions)[index];
        var y := CalculateYield(p, now);
        var q := p.(amount := p.amount - amount, accumulatedYield := p.accumulatedYield + y);
        && positions == (if q.amount == 0 then old(positions)[..index] + old(positions)[index + 1..]
                         else old(positions)[index := q])
        && investedBalance == old(investedBalance) - amount
        && availableBalance == old(availableBalance) + amount + y
        && Drift() == old(Drift()) + y
        && InvestedDrift() == old(InvestedDrift())
      ensures config == old(config) && totalBalance == old(totalBalance)
      ensures allocations == old(allocations) && yieldHistory == old(yieldHistory)
      ensures lastYieldClaim == old(lastYieldClaim) && yieldClaimCounter == old(yieldClaimCounter)
    {
      var rejection := DivestRejection(config, caller, amount, index, positions);
      if rejection.Some? {
        return Fail(rejection.value);
      }
      var position := positions[index];
      var currentYield := CalculateYield(position, now);
      position := position.(accumulatedYield := position.accumulatedYield + currentYield);
      position := position.(amount := position.amount - amount);
      PrincipalUpdate(positions, index, position);
      if position.amount == 0 {
        positions := positions[..index] + positions[index + 1..];
      } else {
        positions := positions[index := position];
      }
      investedBalance := investedBalance - amount;
      availableBalance := availableBalance + amount + currentYield;
      r := Pass;
    }

    /** `ensure_liquidity`: when `needed` is positive and above the available funds,
        walks the positions to raise it; `invested` drops by what the need dropped
        (principal and yield), `available` rises by the whole of `needed` whatever was
        raised, and running out of positions is not an error. */
    method EnsureLiquidity(needed: int, now: nat)
      requires Valid() && Accrues(positions, now)
      modifies this
      ensures Valid()
      ensures needed > 0 && needed > old(availableBalance) ==>
        var w := Walk(old(positions), needed, now);
        && positions == w.kept
        && investedBalance == old(investedBalance) - (needed - w.remaining)
        && availableBalance == old(availableBalance) + needed
        && InvestedDrift() == old(InvestedDrift()) - w.yieldTaken
        && Drift() == old(Drift()) + w.remaining
      ensures !(needed > 0 && needed > old(availableBalance)) ==>
        positions == old(positions) && investedBalance == old(investedBalance)
        && availableBalance == old(availableBalance)
      ensures config == old(config) && totalBalance == old(totalBalance)
      ensures allocations == old(allocations) && yieldHistory == old(yieldHistory)
      ensures lastYieldClaim == old(lastYieldClaim) && yieldClaimCounter == old(yieldClaimCounter)
    {
      if needed > 0 && needed > availableBalance {
        var kept, remaining := DivestForLiquidity(positions, needed, now);
        WalkKeepsFunded(positions, needed, now);
        WalkAccounting(positions, needed, now);
        positions := kept;
        investedBalance := investedBalance - (needed - remaining);
        availableBalance := availableBalance + needed;
      }
    }

    /** `allocate_grant`: raises liquidity if the grant exceeds the available funds,
        appends an Approved allocation, and writes back the available balance read
        before raising liquidity, less the grant. */
    method AllocateGrant(caller: Address, grantee: Address, amount: int, now: nat)
      returns (r: Outcome<TreasuryError>)
      requires Valid() && Accrues(positions, now)
      modifies this
      ensures Valid()
      ensures r == (if AdminRejection(old(config), caller).Some? then OutcomeOf(AdminRejection(old(config), caller))
                    else if amount <= 0 then Fail(InvalidAmount) else Pass)
      ensures r.Fail? ==> unchanged(this)
      ensures r.Pass? ==>
        var needed := amount - old(availableBalance);
        && allocations == old(allocations) + [GrantAllocation(grantee, amount, now, Approved)]
        && availableBalance == old(availableBalance) - amount
        && (if needed > 0 && needed > old(availableBalance) then
              var w := Walk(old(positions), needed, now);
              positions == w.kept && investedBalance == old(investedBalance) - (needed - w.remaining)
            else
              positions == old(positions) && investedBalance == old(investedBalance))
      ensures config == old(config) && totalBalance == old(totalBalance)
      ensures yieldHistory == old(yieldHistory)
      ensures lastYieldClaim == old(lastYieldClaim) && yieldClaimCounter == old(yieldClaimCounter)
    {
      var rejection := AdminRejection(config, caller);
      if rejection.Some? {
        return Fail(rejection.value);
      }
      if amount <= 0 {
        return Fail(InvalidAmount);
      }
      var available := availableBalance;
      if amount > available {
        var needed := amount - available;
        EnsureLiquidity(needed, now);
      }
      allocations := allocations + [GrantAllocation(grantee, amount, now, Approved)];
      availableBalance := available - amount;
      r := Pass;
    }

    /** `withdraw_grant`: the grantee takes an Approved allocation, which becomes
        Disbursed; liquidity is raised if needed and `available` is debited again. */
    method WithdrawGrant(grantee: Address, allocationId: nat, now: nat) returns (r: Outcome<TreasuryError>)
      requires Valid() && Accrues(positions, now)
      modifies this
      ensures Valid()
      ensures r == OutcomeOf(WithdrawRejection(old(allocations), grantee, allocationId))
      ensures r.Fail? ==> unchanged(this)
      ensures r.Pass? ==>
        var a := old(allocations)[allocationId];
        var needed := a.amount - old(availableBalance);
        var fires := needed > 0 && needed > old(availableBalance);
        && allocations == old(allocations)[allocationId := a.(status := Disbursed)]
        && availableBalance == old(availableBalance) + (if fires then needed else 0) - a.amount
        && (if fires then
              var w := Walk(old(positions), needed, now);
              positions == w.kept && investedBalance == old(investedBalance) - (needed - w.remaining)
            else
              positions == old(positions) && investedBalance == old(investedBalance))
      ensures config == old(config) && totalBalance == old(totalBalance)
      ensures yieldHistory == old(yieldHistory)
      ensures lastYieldClaim == old(lastYieldClaim) && yieldClaimCounter == old(yieldClaimCounter)
    {
      var rejection := WithdrawRejection(allocations, grantee, allocationId);
      if rejection.Some? {
        return Fail(rejection.value);
      }
      var allocation := allocations[allocationId];
      if allocation.amount > availableBalance {
        EnsureLiquidity(allocation.amount - availableBalance, now);
      }
      allocation := allocation.(status := Disbursed);
      allocations := allocations[allocationId := allocation];
      availableBalance := availableBalance - allocation.amount;
      r := Pass;
    }

    /** `claim_yield`: settles every position, logs one record per positive yield,
        credits the total to `available` (not to `total`) and counts the claim. */
    method ClaimYield(caller: Address, now: nat) returns (r: Outcome<TreasuryError>)
      requires Valid() && Accrues(positions, now)
      modifies this
      ensures Valid()
      ensures r == OutcomeOf(AdminRejection(old(config), caller))
      ensures r.Fail? ==> unchanged(this)
      ensures r.Pass? ==>
        var claimed := PositiveYield(old(positions), now);
        && |positions| == |old(positions)|
        && (forall i :: 0 <= i < |positions| ==> positions[i] == Settle(old(positions)[i], now))
        && yieldHistory == old(yieldHistory) + YieldRecords(old(positions), now)
        && availableBalance == old(availableBalance) + claimed
        && claimed >= 0
        && Drift() == old(Drift()) + claimed
        && AccumulatedYield(positions) == AccumulatedYield(old(positions)) + claimed
        && lastYieldClaim == now
        && yieldClaimCounter == old(yieldClaimCounter) + 1
      ensures config == old(config) && totalBalance == old(totalBalance)
      ensures investedBalance == old(investedBalance) && allocations == old(allocations)
    {
      var rejection := AdminRejection(config, caller);
      if rejection.Some? {
        return Fail(rejection.value);
      }
      var settled, records, totalYield := SettleAll(positions, now);
      SettleAllAccounting(positions, settled, now);
      PositiveYieldNonNegative(positions, now);
      assert Funded(settled) by {
        forall i | 0 <= i < |settled| ensures settled[i].amount > 0 {
          assert settled[i].amount == positions[i].amount;
        }
      }
      positions := settled;
      yieldHistory := yieldHistory + records;
      availableBalance := availableBalance + totalYield;
      lastYieldClaim := now;
      yieldClaimCounter := yieldClaimCounter + 1;
      r := Pass;
    }

    /** `get_accumulated_yield`. */
    method GetAccumulatedYield() returns (total: int)
      ensures total == AccumulatedYield(positions)
    {
      total := SumAccumulatedYield(positions);
    }

    /** `should_auto_invest`: whether the available funds reach the threshold. */
    function ShouldAutoInvest(): (r: Result<bool, TreasuryError>)
      reads this
      ensures config.None? <==> r == Err(NotInitialized)
      ensures r == Ok(true) <==> config.Some? && availableBalance >= config.value.autoInvestThreshold
    {
      if config.None? then Err(NotInitialized)
      else Ok(availableBalance >= config.value.autoInvestThreshold)
    }
  }

  /** The withdrawal test's sequence: a deposit of 3000 at threshold 1000 auto-invests
      1500; a grant of 1000 needs no liquidity; its withdrawal debits `available` again,
      leaving it negative, and a second withdrawal of the same grant fails. */
  method WithdrawGrantScenario(admin: Address, pool: Address, depositor: Address, grantee: Address)
    returns (t: Treasury)
    ensures t.totalBalance == 3000 && t.investedBalance == 1500
    ensures t.availableBalance == -500
    ensures t.allocations == [GrantAllocation(grantee, 1000, 0, Disbursed)]
  {
    t := new Treasury();
    var r := t.Initialize(admin, pool, 2000, 1000, 86400);
    r := t.Deposit(depositor, 3000, 0);
    assert t.availableBalance == 1500 && t.investedBalance == 1500;
    r := t.AllocateGrant(admin, grantee, 1000, 0);
    assert t.availableBalance == 500;
    r := t.WithdrawGrant(grantee, 0, 0);
    assert r == Pass;
    r := t.WithdrawGrant(grantee, 0, 0);
    assert r == Fail(NotWithdrawable);
  }

  /** `get_apy`: the fixed rate that every yield record carries. */
  function GetApy(): (r: nat)
    ensures r == Apy && r * 20 == BasisPoints
  {
    500
  }

  lemma PrincipalAppend(ps: seq<InvestmentPosition>, p: InvestmentPosition)
    ensures Principal(ps + [p]) == Principal(ps) + p.amount
  {
    if ps != [] {
      assert (ps + [p])[1..] == ps[1..] + [p];
      PrincipalAppend(ps[1..], p);
    }
  }

  /** Replacing (or, when emptied, removing) one position changes the principal held
      by the change in that position's amount. */
  lemma {:induction false} PrincipalUpdate(ps: seq<InvestmentPosition>, i: nat, q: InvestmentPosition)
    requires i < |ps|
    ensures Principal(ps[i := q]) == Principal(ps) - ps[i].amount + q.amount
    ensures q.amount == 0 ==> Principal(ps[..i] + ps[i + 1..]) == Principal(ps) - ps[i].amount
  {
    if i == 0 {
      assert ps[i := q][1..] == ps[1..];
      assert ps[..i] + ps[i + 1..] == ps[1..];
    } else {
      PrincipalUpdate(ps[1..], i - 1, q);
      assert ps[i := q][1..] == ps[1..][i - 1 := q];
      assert (ps[..i] + ps[i + 1..])[1..] == ps[1..][..i - 1] + ps[1..][i..];
    }
  }
}
