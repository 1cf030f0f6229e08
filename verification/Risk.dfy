/**
 The risk gate (backrunner/risk.py) and what it guarantees when it guards every step of a run. Money is
 real-valued; the rounding of the trade size to cents is any multiple of a cent within half a cent.
 */
module Risk {

  datatype Policy = Policy(
    pilotRiskPct: real,
    validatedRiskPct: real,
    tradeCapUsd: real,
    walletReserveUsd: real,
    dailyLossPct: real,
    maximumDrawdownPct: real,
    minimumLiveAttemptsForScale: int,
    minimumShadowHours: real,
    minimumShadowCandidates: int)

  datatype Snapshot = Snapshot(
    equity: real,
    highWater: real,
    dayStartEquity: real,
    dailyPnl: real,
    liveSettledAttempts: int,
    livePnl: real,
    activeTransactions: int,
    residualInventory: bool,
    directExecutorProven: bool,
    profitGuardProven: bool,
    shadowHours: real,
    shadowCandidates: int,
    shadowNetProfit: real)

  datatype Reason =
    | DirectExecutorUnproven | ProfitGuardUnproven | InsufficientShadowRuntime | InsufficientShadowCandidates
    | ShadowNetNotPositive | ActiveTransactionExists | ResidualInventory | DailyLossLimit | MaximumDrawdown
    | PilotNotWalletNetPositive

  datatype Stage = Locked | Pilot | Validated

  /** `tradeUsd` is the size before rounding. */
  datatype Decision = Decision(stage: Stage, tradeUsd: real, reasons: seq<Reason>) {
    predicate Allowed() { stage != Locked }
  }

  function If(condition: bool, reason: Reason): seq<Reason> {
    if condition then [reason] else []
  }

  function ReadinessReasons(s: Snapshot, p: Policy): seq<Reason> {
    If(!s.directExecutorProven, DirectExecutorUnproven)
    + If(!s.profitGuardProven, ProfitGuardUnproven)
    + If(s.shadowHours < p.minimumShadowHours, InsufficientShadowRuntime)
    + If(s.shadowCandidates < p.minimumShadowCandidates, InsufficientShadowCandidates)
    + If(s.shadowNetProfit <= 0.0, ShadowNetNotPositive)
  }

  function LossReasons(s: Snapshot, p: Policy): seq<Reason> {
    If(s.activeTransactions > 0, ActiveTransactionExists)
    + If(s.residualInventory, ResidualInventory)
    + If(s.dailyPnl <= -(s.dayStartEquity * p.dailyLossPct / 100.0), DailyLossLimit)
    + If(s.equity <= s.highWater * (1.0 - p.maximumDrawdownPct / 100.0), MaximumDrawdown)
  }

  function Min(a: real, b: real): real {
    if b < a then b else a
  }

  function Max(a: real, b: real): real {
    if b > a then b else a
  }

  function TradeSize(s: Snapshot, p: Policy, riskPct: real): real {
    Min(Min(s.equity * riskPct / 100.0, p.tradeCapUsd), Max(0.0, s.equity - p.walletReserveUsd))
  }

  function AssessRisk(s: Snapshot, p: Policy): Decision {
    var readiness := ReadinessReasons(s, p);
    var losses := LossReasons(s, p);
    if readiness != [] then Decision(Locked, 0.0, readiness)
    else if losses != [] then Decision(Locked, 0.0, losses)
    else if s.liveSettledAttempts >= p.minimumLiveAttemptsForScale then
      if s.livePnl <= 0.0 then Decision(Locked, 0.0, [PilotNotWalletNetPositive])
      else Decision(Validated, TradeSize(s, p, p.validatedRiskPct), [])
    else Decision(Pilot, TradeSize(s, p, p.pilotRiskPct), [])
  }

  /** The gate opens exactly when every proof, every loss limit and, past the pilot, the pilot's result are good. */
  lemma AllowedExactly(s: Snapshot, p: Policy)
    ensures AssessRisk(s, p).Allowed() <==>
            && s.directExecutorProven && s.profitGuardProven
            && s.shadowHours >= p.minimumShadowHours && s.shadowCandidates >= p.minimumShadowCandidates
            && s.shadowNetProfit > 0.0
            && s.activeTransactions <= 0 && !s.residualInventory
            && s.dailyPnl > -(s.dayStartEquity * p.dailyLossPct / 100.0)
            && s.equity > s.highWater * (1.0 - p.maximumDrawdownPct / 100.0)
            && (s.liveSettledAttempts >= p.minimumLiveAttemptsForScale ==> s.livePnl > 0.0)
    ensures AssessRisk(s, p).Allowed() <==> AssessRisk(s, p).reasons == []
    ensures AssessRisk(s, p).Allowed() ==>
              && AssessRisk(s, p).tradeUsd <= p.tradeCapUsd
              && (AssessRisk(s, p).tradeUsd <= 0.0 || AssessRisk(s, p).tradeUsd <= s.equity - p.walletReserveUsd)
              && (AssessRisk(s, p).stage == Validated <==> s.liveSettledAttempts >= p.minimumLiveAttemptsForScale)
    ensures !AssessRisk(s, p).Allowed() ==> AssessRisk(s, p).tradeUsd == 0.0
  {
    var readiness, losses := ReadinessReasons(s, p), LossReasons(s, p);
    assert readiness == [] <==>
      s.directExecutorProven && s.profitGuardProven && s.shadowHours >= p.minimumShadowHours
      && s.shadowCandidates >= p.minimumShadowCandidates && s.shadowNetProfit > 0.0;
    assert losses == [] <==>
      s.activeTransactions <= 0 && !s.residualInventory && s.dailyPnl > -(s.dayStartEquity * p.dailyLossPct / 100.0)
      && s.equity > s.highWater * (1.0 - p.maximumDrawdownPct / 100.0);
  }

  /** The size is the least of three: the stage's share of equity, the cap, and what the reserve leaves. */
  lemma SizesExactly(s: Snapshot, p: Policy)
    requires AssessRisk(s, p).Allowed()
    ensures var d := AssessRisk(s, p);
            var validated := s.liveSettledAttempts >= p.minimumLiveAttemptsForScale;
            var share := s.equity * (if validated then p.validatedRiskPct else p.pilotRiskPct) / 100.0;
            var spare := if s.equity > p.walletReserveUsd then s.equity - p.walletReserveUsd else 0.0;
            && d.stage == (if validated then Validated else Pilot)
            && d.tradeUsd <= share && d.tradeUsd <= p.tradeCapUsd && d.tradeUsd <= spare
            && (d.tradeUsd == share || d.tradeUsd == p.tradeCapUsd || d.tradeUsd == spare)
  {
    hide ReadinessReasons, LossReasons;
  }

  /** Each readiness reason is given exactly when its condition holds; loss reasons only when no readiness one is. */
  lemma ReasonsExactly(s: Snapshot, p: Policy)
    ensures var given := AssessRisk(s, p).reasons;
            var ready := s.directExecutorProven && s.profitGuardProven && s.shadowHours >= p.minimumShadowHours
                         && s.shadowCandidates >= p.minimumShadowCandidates && s.shadowNetProfit > 0.0;
            && (DirectExecutorUnproven in given <==> !s.directExecutorProven)
            && (ProfitGuardUnproven in given <==> !s.profitGuardProven)
            && (InsufficientShadowRuntime in given <==> s.shadowHours < p.minimumShadowHours)
            && (InsufficientShadowCandidates in given <==> s.shadowCandidates < p.minimumShadowCandidates)
            && (ShadowNetNotPositive in given <==> s.shadowNetProfit <= 0.0)
            && (ActiveTransactionExists in given <==> ready && s.activeTransactions > 0)
            && (ResidualInventory in given <==> ready && s.residualInventory)
            && (DailyLossLimit in given <==> ready && s.dailyPnl <= -(s.dayStartEquity * p.dailyLossPct / 100.0))
            && (MaximumDrawdown in given <==>
                ready && s.equity <= s.highWater * (1.0 - p.maximumDrawdownPct / 100.0))
            && (PilotNotWalletNetPositive in given <==>
                && ready && s.activeTransactions <= 0 && !s.residualInventory
                && s.dailyPnl > -(s.dayStartEquity * p.dailyLossPct / 100.0)
                && s.equity > s.highWater * (1.0 - p.maximumDrawdownPct / 100.0)
                && s.liveSettledAttempts >= p.minimumLiveAttemptsForScale && s.livePnl <= 0.0)
  {
    hide ReadinessReasons, LossReasons;
    ReadinessMembers(s, p);
    LossMembers(s, p);
  }

  lemma ReadinessMembers(s: Snapshot, p: Policy)
    ensures forall r :: r in ReadinessReasons(s, p) <==>
                          || (r == DirectExecutorUnproven && !s.directExecutorProven)
                          || (r == ProfitGuardUnproven && !s.profitGuardProven)
                          || (r == InsufficientShadowRuntime && s.shadowHours < p.minimumShadowHours)
                          || (r == InsufficientShadowCandidates && s.shadowCandidates < p.minimumShadowCandidates)
                          || (r == ShadowNetNotPositive && s.shadowNetProfit <= 0.0)
    ensures ReadinessReasons(s, p) == [] <==>
            s.directExecutorProven && s.profitGuardProven && s.shadowHours >= p.minimumShadowHours
            && s.shadowCandidates >= p.minimumShadowCandidates && s.shadowNetProfit > 0.0
  {
  }

  lemma LossMembers(s: Snapshot, p: Policy)
    ensures forall r :: r in LossReasons(s, p) <==>
                          || (r == ActiveTransactionExists && s.activeTransactions > 0)
                          || (r == ResidualInventory && s.residualInventory)
                          || (r == DailyLossLimit && s.dailyPnl <= -(s.dayStartEquity * p.dailyLossPct / 100.0))
                          || (r == MaximumDrawdown && s.equity <= s.highWater * (1.0 - p.maximumDrawdownPct / 100.0))
    ensures LossReasons(s, p) == [] <==>
            s.activeTransactions <= 0 && !s.residualInventory
            && s.dailyPnl > -(s.dayStartEquity * p.dailyLossPct / 100.0)
            && s.equity > s.highWater * (1.0 - p.maximumDrawdownPct / 100.0)
  {
    hide If;
    FourReasons(s.activeTransactions > 0, s.residualInventory,
                s.dailyPnl <= -(s.dayStartEquity * p.dailyLossPct / 100.0),
                s.equity <= s.highWater * (1.0 - p.maximumDrawdownPct / 100.0));
  }

  lemma FourReasons(a: bool, b: bool, c: bool, d: bool)
    ensures var all := If(a, ActiveTransactionExists) + If(b, ResidualInventory) + If(c, DailyLossLimit)
                       + If(d, MaximumDrawdown);
            && (all == [] <==> !a && !b && !c && !d)
            && forall r :: r in all <==>
                 || (r == ActiveTransactionExists && a) || (r == ResidualInventory && b)
                 || (r == DailyLossLimit && c) || (r == MaximumDrawdown && d)
  {
  }

  function Cents(n: int): real {
    n as real / 100.0
  }

  /** `rounded` is `exact` rounded to cents, ties either way. */
  ghost predicate RoundsToCents(exact: real, rounded: real) {
    && -0.005 <= rounded - exact <= 0.005
    && exists n: int :: rounded == Cents(n)
  }

  /** One attempt: the snapshot the gate saw, the size it allowed, and the equity afterwards. */
  datatype Attempt = Attempt(snapshot: Snapshot, maximumTrade: real, equityAfter: real)

  /** The gate was asked about the equity and high water of the moment, and its size bounded the loss. */
  ghost predicate Legal(p: Policy, equity: real, highWater: real, a: Attempt) {
    && a.snapshot.equity == equity && a.snapshot.highWater == highWater
    && var d := AssessRisk(a.snapshot, p);
       if d.Allowed() then RoundsToCents(d.tradeUsd, a.maximumTrade) && a.equityAfter >= equity - a.maximumTrade
       else a.equityAfter == equity
  }

  /** A run of attempts from `equity` and `highWater`, the latter a running maximum. */
  ghost predicate LegalRun(p: Policy, equity: real, highWater: real, attempts: seq<Attempt>)
    decreases |attempts|
  {
    attempts == [] ||
    (Legal(p, equity, highWater, attempts[0])
     && LegalRun(p, attempts[0].equityAfter, Max(highWater, attempts[0].equityAfter), attempts[1..]))
  }

  /** At least two of: a reserve that is not negative, a drawdown of at most all, and risks of at most all. */
  predicate SanePolicy(p: Policy) {
    var reserve, drawdown, risk :=
      p.walletReserveUsd >= 0.0, p.maximumDrawdownPct <= 100.0, LargestRisk(p) <= 100.0;
    (reserve && drawdown) || (reserve && risk) || (drawdown && risk)
  }

  function LargestRisk(p: Policy): real {
    Max(p.pilotRiskPct, p.validatedRiskPct)
  }

  /** The share of the high water that the drawdown rule and one more attempt at the largest risk leave. */
  function Keep(p: Policy): real {
    (1.0 - p.maximumDrawdownPct / 100.0) * (1.0 - LargestRisk(p) / 100.0)
  }

  /** The lowest equity a run may reach, as far as the drawdown rule goes. */
  function DrawdownFloor(p: Policy, highWater: real): real {
    highWater * Keep(p) - 0.005
  }

  predicate AboveFloors(p: Policy, equity: real, highWater: real) {
    equity >= p.walletReserveUsd - 0.005 && equity >= DrawdownFloor(p, highWater)
  }

  /** A non-positive size rounds to a non-positive one: there is no cent strictly between. */
  lemma NoTradeRoundsToNoTrade(exact: real, rounded: real)
    requires RoundsToCents(exact, rounded) && exact <= 0.0
    ensures rounded <= 0.0
  {
    var n: int :| rounded == Cents(n);
    assert n <= 0;
  }

  lemma Scale(a: real, b: real, k: real)
    requires a <= b && k >= 0.0
    ensures a * k <= b * k
  {
    assert (b - a) * k >= 0.0;
  }

  /** An allowed attempt keeps the reserve. */
  lemma AttemptKeepsReserve(p: Policy, equity: real, highWater: real, a: Attempt)
    requires Legal(p, equity, highWater, a) && equity >= p.walletReserveUsd - 0.005
    ensures a.equityAfter >= p.walletReserveUsd - 0.005
  {
    hide ReadinessReasons, LossReasons;
    var d := AssessRisk(a.snapshot, p);
    if d.Allowed() && equity <= p.walletReserveUsd {
      assert d.tradeUsd <= 0.0;
      NoTradeRoundsToNoTrade(d.tradeUsd, a.maximumTrade);
    }
  }

  /** Losing at most `pct` percent of what is above `line`, up to half a cent, with `pct <= largest`. */
  lemma LossAboveLine(equity: real, line: real, pct: real, largest: real, loss: real)
    requires 0.0 <= line <= equity && pct <= largest <= 100.0
    requires loss <= equity * pct / 100.0 + 0.005
    ensures equity - loss >= line * (1.0 - largest / 100.0) - 0.005
  {
    var keep := 1.0 - largest / 100.0;
    Scale(pct, largest, equity);
    Scale(line, equity, keep);
    assert equity * keep == equity - equity * largest / 100.0;
  }

  /** The same where line or risk is off, of an attempt that does not end below half a cent of debt. */
  lemma EndAboveLine(equity: real, line: real, pct: real, largest: real, after: real)
    requires line <= equity && pct <= largest && equity - after <= equity * pct / 100.0 + 0.005
    requires (line >= 0.0 && largest <= 100.0) || (after >= -0.005 && (line >= 0.0 || largest <= 100.0))
    ensures after >= line * (1.0 - largest / 100.0) - 0.005
  {
    if line >= 0.0 && largest <= 100.0 {
      LossAboveLine(equity, line, pct, largest, equity - after);
    } else if line >= 0.0 {
      Scale(0.0, line, largest / 100.0 - 1.0);
      assert line * (1.0 - largest / 100.0) == -(line * (largest / 100.0 - 1.0));
    } else {
      Scale(line, 0.0, 1.0 - largest / 100.0);
    }
  }

  /** The equity at or below which the drawdown rule shuts the gate. */
  function Line(p: Policy, highWater: real): real {
    highWater * (1.0 - p.maximumDrawdownPct / 100.0)
  }

  lemma FloorIsBelowLine(p: Policy, highWater: real)
    ensures DrawdownFloor(p, highWater) == Line(p, highWater) * (1.0 - LargestRisk(p) / 100.0) - 0.005
  {
    var d, r := 1.0 - p.maximumDrawdownPct / 100.0, 1.0 - LargestRisk(p) / 100.0;
    assert highWater * (d * r) == highWater * d * r;
  }

  lemma LineIsNotNegative(p: Policy, highWater: real)
    requires highWater >= 0.0 && p.maximumDrawdownPct <= 100.0
    ensures Line(p, highWater) >= 0.0
  {
    Scale(0.0, highWater, 1.0 - p.maximumDrawdownPct / 100.0);
  }

  /** An attempt may not end below the drawdown line less the largest risk: it started above that line. */
  lemma AttemptKeepsDrawdownFloor(p: Policy, equity: real, highWater: real, a: Attempt)
    requires SanePolicy(p) && highWater >= 0.0
    requires Legal(p, equity, highWater, a) && AboveFloors(p, equity, highWater)
    ensures a.equityAfter >= DrawdownFloor(p, highWater)
  {
    hide AssessRisk, Legal, LargestRisk, DrawdownFloor, Line, RiskPct;
    LegalLoss(p, equity, highWater, a);
    if AssessRisk(a.snapshot, p).Allowed() {
      AttemptKeepsReserve(p, equity, highWater, a);
      AllowedIsAboveLine(a.snapshot, p);
      LossIsWithinRisk(p, equity, highWater, a);
      FloorIsBelowLine(p, highWater);
      if p.maximumDrawdownPct <= 100.0 {
        LineIsNotNegative(p, highWater);
      }
      EndAboveLine(equity, Line(p, highWater), RiskPct(a.snapshot, p), LargestRisk(p), a.equityAfter);
    }
  }

  lemma LossIsWithinRisk(p: Policy, equity: real, highWater: real, a: Attempt)
    requires Legal(p, equity, highWater, a) && AssessRisk(a.snapshot, p).Allowed()
    ensures equity - a.equityAfter <= equity * RiskPct(a.snapshot, p) / 100.0 + 0.005
    ensures RiskPct(a.snapshot, p) <= LargestRisk(p)
  {
    hide AssessRisk, Legal, LargestRisk, RiskPct;
    LegalLoss(p, equity, highWater, a);
    SizeIsWithinRisk(a.snapshot, p);
  }

  function RiskPct(s: Snapshot, p: Policy): real {
    if AssessRisk(s, p).stage == Validated then p.validatedRiskPct else p.pilotRiskPct
  }

  lemma LegalLoss(p: Policy, equity: real, highWater: real, a: Attempt)
    requires Legal(p, equity, highWater, a)
    ensures a.snapshot.equity == equity && a.snapshot.highWater == highWater
    ensures var d := AssessRisk(a.snapshot, p);
            if d.Allowed() then equity - a.equityAfter <= d.tradeUsd + 0.005 else a.equityAfter == equity
  {
    hide AssessRisk;
  }

  lemma AllowedIsAboveLine(s: Snapshot, p: Policy)
    requires AssessRisk(s, p).Allowed()
    ensures s.equity > Line(p, s.highWater)
  {
    assert LossReasons(s, p) == [];
    assert If(s.equity <= s.highWater * (1.0 - p.maximumDrawdownPct / 100.0), MaximumDrawdown) == [];
  }

  lemma SizeBound(s: Snapshot, p: Policy, pct: real)
    ensures TradeSize(s, p, pct) <= s.equity * pct / 100.0
  {
  }

  lemma SizeIsWithinRisk(s: Snapshot, p: Policy)
    requires AssessRisk(s, p).Allowed()
    ensures AssessRisk(s, p).tradeUsd <= s.equity * RiskPct(s, p) / 100.0 && RiskPct(s, p) <= LargestRisk(p)
  {
    hide ReadinessReasons, LossReasons, TradeSize;
    SizeBound(s, p, p.validatedRiskPct);
    SizeBound(s, p, p.pilotRiskPct);
    assert AssessRisk(s, p).tradeUsd == TradeSize(s, p, RiskPct(s, p));
  }

  /** Raising the high water to the new equity cannot put the floor above it. */
  lemma NewHighKeepsFloor(p: Policy, equity: real)
    requires Keep(p) <= 1.0 && equity >= 0.0
    ensures equity >= DrawdownFloor(p, equity)
  {
    hide Keep;
    Scale(Keep(p), 1.0, equity);
  }

  /** Over any run, whatever the percentages: equity at or above the reserve stays there, to half a cent. */
  lemma {:induction false} ReserveIsKept(p: Policy, equity: real, highWater: real, attempts: seq<Attempt>)
    requires equity >= p.walletReserveUsd - 0.005 && LegalRun(p, equity, highWater, attempts)
    ensures forall i :: 0 <= i < |attempts| ==> attempts[i].equityAfter >= p.walletReserveUsd - 0.005
    decreases |attempts|
  {
    hide Legal;
    if attempts != [] {
      var a := attempts[0];
      AttemptKeepsReserve(p, equity, highWater, a);
      ReserveIsKept(p, a.equityAfter, Max(highWater, a.equityAfter), attempts[1..]);
      assert forall i :: 1 <= i < |attempts| ==> attempts[i] == attempts[1..][i - 1];
    }
  }

  /**
   Over any run the gate guards: equity that starts at or above both bounds never falls below the wallet
   reserve, nor below the drawdown line less one attempt at the largest risk, by more than half a cent.
   */
  lemma {:induction false} EquityStaysAboveFloors(p: Policy, equity: real, highWater: real, attempts: seq<Attempt>)
    requires SanePolicy(p) && Keep(p) <= 1.0
    requires highWater >= 0.0 && AboveFloors(p, equity, highWater) && LegalRun(p, equity, highWater, attempts)
    ensures StaysAboveFloors(p, attempts)
    decreases |attempts|
  {
    hide Legal, DrawdownFloor, AssessRisk, Keep, SanePolicy;
    if attempts != [] {
      var a := attempts[0];
      AttemptKeepsReserve(p, equity, highWater, a);
      AttemptKeepsDrawdownFloor(p, equity, highWater, a);
      if a.equityAfter > highWater {
        NewHighKeepsFloor(p, a.equityAfter);
      }
      LegalLoss(p, equity, highWater, a);
      EquityStaysAboveFloors(p, a.equityAfter, Max(highWater, a.equityAfter), attempts[1..]);
      assert forall i :: 1 <= i < |attempts| ==> attempts[i] == attempts[1..][i - 1];
    }
  }

  predicate StaysAboveFloors(p: Policy, attempts: seq<Attempt>) {
    forall i :: 0 <= i < |attempts| ==>
                  var after := attempts[i].equityAfter;
                  AboveFloors(p, after, Max(attempts[i].snapshot.highWater, after))
  }

  /** Every run that starts above both floors stays there. */
  ghost predicate KeepsFloors(p: Policy) {
    forall equity: real, highWater: real, attempts: seq<Attempt> ::
      highWater >= 0.0 && AboveFloors(p, equity, highWater) && LegalRun(p, equity, highWater, attempts) ==>
        StaysAboveFloors(p, attempts)
  }

  /** No policy keeps floors that leave more than the whole high water; a sane one keeps all others. */
  lemma FloorsAreKeptExactly(p: Policy)
    ensures KeepsFloors(p) ==> Keep(p) <= 1.0
    ensures SanePolicy(p) ==> (KeepsFloors(p) <==> Keep(p) <= 1.0)
  {
    hide LegalRun, AboveFloors, Keep, StaysAboveFloors, SanePolicy;
    if Keep(p) <= 1.0 && SanePolicy(p) {
      forall equity: real, highWater: real, attempts: seq<Attempt> |
        highWater >= 0.0 && AboveFloors(p, equity, highWater) && LegalRun(p, equity, highWater, attempts)
        ensures StaysAboveFloors(p, attempts)
      {
        EquityStaysAboveFloors(p, equity, highWater, attempts);
      }
    } else if Keep(p) > 1.0 {
      var equity, a := NewHighCanBreakFloor(p);
      assert !StaysAboveFloors(p, [a]);
    }
  }

  /** Otherwise a shut gate is enough: the equity it saw becomes a high water whose floor is above it. */
  lemma NewHighCanBreakFloor(p: Policy) returns (equity: real, a: Attempt)
    requires Keep(p) > 1.0
    ensures AboveFloors(p, equity, 0.0) && LegalRun(p, equity, 0.0, [a]) && !StaysAboveFloors(p, [a])
  {
    hide Keep;
    var gap := Keep(p) - 1.0;
    var enough := 0.01 / gap;
    assert enough * gap == 0.01 && enough > 0.0;
    equity := Max(p.walletReserveUsd, enough);
    a := Attempt(Snapshot(equity, 0.0, 0.0, 0.0, 0, 0.0, 0, false, false, false, 0.0, 0, 0.0), 0.0, equity);
    assert ReadinessReasons(a.snapshot, p)[0] == DirectExecutorUnproven;
    Scale(enough, equity, gap);
    assert equity * Keep(p) == equity + equity * gap;
    assert DrawdownFloor(p, equity) > equity;
    assert [a][1..] == [];
    assert [a][0].equityAfter == equity;
    assert !AboveFloors(p, equity, Max([a][0].snapshot.highWater, equity));
  }
}
