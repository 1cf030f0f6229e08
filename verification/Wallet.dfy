/**
 The whole transaction (scripts/lib/direct-roundtrip.mjs, scripts/compose-direct-roundtrip.mjs):
 fee, account setup, funding, sync, the executor, close, tip. The SPL and system programs follow
 their published rules; the venues stay arbitrary but for the two rules in `Tame`.
 */
module Wallet {
  import opened Wrappers
  import opened Bytes
  import opened Solana
  import opened Codec
  import opened Builder
  import opened Executor
  import opened CompileRun

  datatype Step =
    | CreateQuote
    | CreateIntermediate
    | Fund(lamports: nat)
    | SyncQuote
    | Execute(instruction: Instruction)
    | CloseQuote
    | Tip(lamports: nat)

  datatype PlanError =
    | UnsupportedDirection
    | FirstLegTooShort
    | FundingNotPositive
    | BuildFailed(reason: BuildError)

  /** How much is wrapped: the exact input when Meteora comes first, the pinned maximum when Pump does. */
  function Funding(direction: string, inputAmount: int, first: Instruction): Result<int, PlanError> {
    if direction == "meteora_to_pump" then Ok(inputAmount)
    else if direction == "pump_to_meteora" then
      if |first.data| < 24 then Err(FirstLegTooShort) else Ok(U64At(first.data, 16))
    else Err(UnsupportedDirection)
  }

  /** Setup, the executor, cleanup, and the tip when there is one. */
  function Steps(funding: nat, input: BuildInput, tip: nat): seq<Step>
    requires Rejection(input).None?
  {
    [CreateQuote, CreateIntermediate, Fund(funding), SyncQuote, Execute(Built(input)), CloseQuote]
    + (if tip > 0 then [Tip(tip)] else [])
  }

  function PlanRoundTrip(direction: string, inputAmount: int, input: BuildInput, tip: nat)
    : Result<seq<Step>, PlanError>
  {
    var funding :- Funding(direction, inputAmount, input.first);
    :- Need(funding > 0, FundingNotPositive);
    var rejection := Rejection(input);
    if rejection.Some? then Err(BuildFailed(rejection.value))
    else Ok(Steps(funding, input, tip))
  }

  /** Everything outside the plan that its effect depends on. */
  datatype Env = Env(
    venue: Venue,
    slot: u64,
    wallet: Pubkey,
    quote: Pubkey,
    intermediate: Pubkey,
    mint: Pubkey,            // the intermediate token
    tokenProgram: Pubkey,    // and the program that owns its accounts
    tipRecipient: Pubkey,
    reserve: nat,            // rent-exempt reserve of the quote account
    intermediateRent: nat,
    passed: seq<AccountMeta>) // what the runtime hands the executor

  function Lamports(ledger: Ledger, key: Pubkey): nat {
    Get(ledger, key).lamports
  }

  function WithLamports(ledger: Ledger, key: Pubkey, lamports: nat): Ledger {
    ledger[key := Get(ledger, key).(lamports := lamports)]
  }

  function Transfer(ledger: Ledger, source: Pubkey, target: Pubkey, lamports: nat): Option<Ledger> {
    if Lamports(ledger, source) < lamports then None
    else
      var debited := WithLamports(ledger, source, Lamports(ledger, source) - lamports);
      Some(WithLamports(debited, target, Lamports(debited, target) + lamports))
  }

  function NewTokenData(mint: Pubkey, authority: Pubkey, amount: u64): seq<byte> {
    mint + authority + ToLe(amount, 8) + seq(93, i => 0)
  }

  /** Create-idempotent: an existing token account of this owner and mint is left alone. */
  function CreateIdempotent(ledger: Ledger, payer: Pubkey, key: Pubkey, mint: Pubkey, program: Pubkey, rent: nat)
    : Option<Ledger>
  {
    var account := Get(ledger, key);
    if account.owner == program then
      var state := TokenState(account);
      if state.Ok? && state.value.mint == mint && state.value.authority == payer then Some(ledger) else None
    else if account.owner != SYSTEM_PROGRAM then None
    else
      var missing := if account.lamports < rent then rent - account.lamports else 0;
      var paid := Transfer(ledger, payer, key, missing);
      if paid.None? then None
      else
        var lamports := Lamports(paid.value, key);
        var amount := if mint == NATIVE_MINT && lamports >= rent then lamports - rent else 0;
        if amount >= U64_LIMIT then None
        else Some(paid.value[key := Account(lamports, program, false, NewTokenData(mint, payer, amount))])
  }

  /** Raises a native account's amount to what its lamports cover beyond the reserve. */
  function SyncNative(ledger: Ledger, key: Pubkey, reserve: nat): Option<Ledger> {
    var account := Get(ledger, key);
    var state := TokenState(account);
    if state.Err? || state.value.mint != NATIVE_MINT || account.lamports < reserve then None
    else
      var amount := account.lamports - reserve;
      if amount < state.value.amount || amount >= U64_LIMIT then None
      else Some(ledger[key := account.(data := Patched(account.data, 64, amount))])
  }

  /** Closing a native account pays all its lamports out. */
  function CloseNative(ledger: Ledger, key: Pubkey, target: Pubkey): Option<Ledger> {
    if TokenState(Get(ledger, key)).Err? || key == target then None
    else
      var paid := WithLamports(ledger, target, Lamports(ledger, target) + Lamports(ledger, key));
      Some(paid[key := EMPTY_ACCOUNT])
  }

  function Apply(env: Env, ledger: Ledger, step: Step): Option<Ledger> {
    match step
    case CreateQuote => CreateIdempotent(ledger, env.wallet, env.quote, NATIVE_MINT, TOKEN_PROGRAM, env.reserve)
    case CreateIntermediate =>
      CreateIdempotent(ledger, env.wallet, env.intermediate, env.mint, env.tokenProgram, env.intermediateRent)
    case Fund(lamports) => Transfer(ledger, env.wallet, env.quote, lamports)
    case SyncQuote => SyncNative(ledger, env.quote, env.reserve)
    case Execute(instruction) =>
      var run := Process(env.venue, env.slot, env.passed, instruction.data, ledger);
      if run.Ok? then Some(run.value.final) else None
    case CloseQuote => CloseNative(ledger, env.quote, env.wallet)
    case Tip(lamports) => Transfer(ledger, env.wallet, env.tipRecipient, lamports)
  }

  function ApplyAll(env: Env, ledger: Ledger, steps: seq<Step>): Option<Ledger>
    decreases |steps|
  {
    if steps == [] then Some(ledger)
    else
      var next := Apply(env, ledger, steps[0]);
      if next.None? then None else ApplyAll(env, next.value, steps[1..])
  }

  /** The fee is charged either way; if any step fails, nothing else happens. */
  function RunTransaction(env: Env, ledger: Ledger, fee: nat, steps: seq<Step>): Ledger
    requires fee <= Lamports(ledger, env.wallet)
  {
    var charged := WithLamports(ledger, env.wallet, Lamports(ledger, env.wallet) - fee);
    var done := ApplyAll(env, charged, steps);
    if done.Some? then done.value else charged
  }

  /** A native token account's lamports cover its amount and its reserve. */
  predicate Backed(ledger: Ledger, quote: Pubkey, reserve: nat) {
    TokenState(Get(ledger, quote)).Ok? ==> Lamports(ledger, quote) >= Amount(ledger, quote) + reserve
  }

  /** All that is assumed of the venues: they take no native lamports, and keep wrapped ones backed. */
  ghost predicate Tame(venue: Venue, wallet: Pubkey, quote: Pubkey, reserve: nat) {
    forall call: Instruction, before: Ledger {:trigger venue(call, before)} :: venue(call, before).Some? ==>
      var after := venue(call, before).value;
      && Lamports(after, wallet) >= Lamports(before, wallet)
      && (Backed(before, quote, reserve) ==> Backed(after, quote, reserve))
  }

  function Wealth(ledger: Ledger, wallet: Pubkey, quote: Pubkey): nat {
    Lamports(ledger, wallet) + Lamports(ledger, quote)
  }

  function NewRent(env: Env, ledger: Ledger): nat {
    if Get(ledger, env.intermediate).owner == env.tokenProgram then 0 else env.intermediateRent
  }

  predicate Separate(env: Env) {
    env.wallet != env.quote && env.wallet != env.intermediate && env.quote != env.intermediate
  }

  lemma TameOnce(env: Env, call: Instruction, before: Ledger, after: Ledger)
    requires Tame(env.venue, env.wallet, env.quote, env.reserve) && Invoke(env.venue, call, before) == Some(after)
    ensures Lamports(after, env.wallet) >= Lamports(before, env.wallet)
    ensures Backed(before, env.quote, env.reserve) ==> Backed(after, env.quote, env.reserve)
  {
    hide Lamports, Backed, RuntimeAllows;
    assert env.venue(call, before) == Some(after);
  }

  /** Two calls of tame venues take nothing from the wallet and keep the wrapped lamports backed. */
  lemma TameTwice(env: Env, first: Instruction, second: Instruction, before: Ledger, middle: Ledger, after: Ledger)
    requires Tame(env.venue, env.wallet, env.quote, env.reserve)
    requires Invoke(env.venue, first, before) == Some(middle) && Invoke(env.venue, second, middle) == Some(after)
    ensures Lamports(after, env.wallet) >= Lamports(before, env.wallet)
    ensures Backed(before, env.quote, env.reserve) ==> Backed(after, env.quote, env.reserve)
  {
    hide Tame, Invoke, Lamports, Backed;
    TameOnce(env, first, before, middle);
    TameOnce(env, second, middle, after);
  }

  /** The executor, seen from the wallet: what it is called with makes its calls those of two tame venues. */
  lemma ExecuteIsTame(env: Env, ledger: Ledger, input: BuildInput)
    requires Separate(env) && Tame(env.venue, env.wallet, env.quote, env.reserve)
    requires Rejection(input).None? && Carries(env.passed, Built(input).accounts)
    requires input.user == env.wallet && input.quote == env.quote && input.intermediate == env.intermediate
    requires Apply(env, ledger, Execute(Built(input))).Some?
    ensures var after := Apply(env, ledger, Execute(Built(input))).value;
            && Lamports(after, env.wallet) >= Lamports(ledger, env.wallet)
            && (Backed(ledger, env.quote, env.reserve) ==> Backed(after, env.quote, env.reserve))
            && TokenState(Get(after, env.quote)).Ok?
            && Amount(after, env.quote) >= Amount(ledger, env.quote) - input.minimumProfit
  {
    hide Process, Parse, Serialize, Admit, TokenState, ResolveCall, ResolveRefs, Patched, Rejection, Table, Tame,
      Invoke, Lamports, Backed, Amount, Carries, FloorMet, BuiltConfig;
    var data := Built(input).data;
    var run := Process(env.venue, env.slot, env.passed, data, ledger).value;
    DistinctCallsAreOriginal(env.venue, env.slot, input, env.passed, ledger);
    ProcessParts(env.venue, env.slot, env.passed, data, ledger);
    AdmitIsDirect(env.slot, input, env.passed, ledger);
    TameTwice(env, run.first, run.second, ledger, run.middle, run.final);
  }

  /** The executor's guard, seen from the wallet: lamports fall by at most the allowed loss. */
  lemma ExecuteKeepsWealth(env: Env, ledger: Ledger, input: BuildInput)
    requires Separate(env) && Tame(env.venue, env.wallet, env.quote, env.reserve)
    requires Rejection(input).None? && Carries(env.passed, Built(input).accounts)
    requires input.user == env.wallet && input.quote == env.quote && input.intermediate == env.intermediate
    requires TokenState(Get(ledger, env.quote)).Ok?
    requires Lamports(ledger, env.quote) == Amount(ledger, env.quote) + env.reserve
    requires Apply(env, ledger, Execute(Built(input))).Some?
    ensures Wealth(Apply(env, ledger, Execute(Built(input))).value, env.wallet, env.quote)
            >= Wealth(ledger, env.wallet, env.quote) - input.minimumProfit
  {
    hide Apply, TokenState, Rejection, Built, Tame, Lamports, Amount, Carries;
    ExecuteIsTame(env, ledger, input);
  }

  /** What each of the other steps does to wallet plus quote-account lamports. */
  lemma StepKeepsWealth(env: Env, ledger: Ledger, step: Step)
    requires Separate(env) && !step.Execute? && Apply(env, ledger, step).Some?
    ensures var after := Apply(env, ledger, step).value;
            var allowed := match step
                           case CreateIntermediate => NewRent(env, ledger)
                           case Tip(lamports) => lamports
                           case _ => 0;
            && Wealth(after, env.wallet, env.quote) >= Wealth(ledger, env.wallet, env.quote) - allowed
            && (step.CreateQuote? || step.Fund? ==> NewRent(env, after) == NewRent(env, ledger))
            && (step.SyncQuote? ==>
                  && TokenState(Get(after, env.quote)).Ok?
                  && Lamports(after, env.quote) == Amount(after, env.quote) + env.reserve)
  {
    hide Patched, NewTokenData;
    if step.SyncQuote? {
      SyncedAmount(ledger, env.quote, env.reserve);
    }
  }

  lemma SyncedAmount(ledger: Ledger, key: Pubkey, reserve: nat)
    requires SyncNative(ledger, key, reserve).Some?
    ensures var after := SyncNative(ledger, key, reserve).value;
            && TokenState(Get(after, key)).Ok?
            && Lamports(after, key) == Lamports(ledger, key) == Amount(after, key) + reserve
  {
  }

  lemma ApplyAllCons(env: Env, ledger: Ledger, step: Step, rest: seq<Step>)
    ensures ApplyAll(env, ledger, [step] + rest)
            == (var next := Apply(env, ledger, step); if next.None? then None else ApplyAll(env, next.value, rest))
  {
    assert ([step] + rest)[1..] == rest;
  }

  /** Takes one step off the front of a run that succeeds. */
  lemma After(env: Env, ledger: Ledger, step: Step, rest: seq<Step>) returns (next: Ledger)
    requires ApplyAll(env, ledger, [step] + rest).Some?
    ensures Apply(env, ledger, step) == Some(next)
    ensures ApplyAll(env, ledger, [step] + rest) == ApplyAll(env, next, rest)
  {
    ApplyAllCons(env, ledger, step, rest);
    next := Apply(env, ledger, step).value;
  }

  lemma SetupKeepsWealth(env: Env, ledger: Ledger, lamports: nat, rest: seq<Step>) returns (next: Ledger)
    requires Separate(env)
    requires var setup := [CreateQuote] + ([CreateIntermediate] + ([Fund(lamports)] + ([SyncQuote] + rest)));
             ApplyAll(env, ledger, setup).Some?
    ensures ApplyAll(env, ledger, [CreateQuote] + ([CreateIntermediate] + ([Fund(lamports)] + ([SyncQuote] + rest))))
            == ApplyAll(env, next, rest)
    ensures Wealth(next, env.wallet, env.quote) >= Wealth(ledger, env.wallet, env.quote) - NewRent(env, ledger)
    ensures TokenState(Get(next, env.quote)).Ok?
    ensures Lamports(next, env.quote) == Amount(next, env.quote) + env.reserve
  {
    hide Apply, ApplyAll, Wealth, NewRent, Lamports, TokenState, Amount;
    var l1 := After(env, ledger, CreateQuote, [CreateIntermediate] + ([Fund(lamports)] + ([SyncQuote] + rest)));
    var l2 := After(env, l1, CreateIntermediate, [Fund(lamports)] + ([SyncQuote] + rest));
    var l3 := After(env, l2, Fund(lamports), [SyncQuote] + rest);
    next := After(env, l3, SyncQuote, rest);
    StepKeepsWealth(env, ledger, CreateQuote);
    StepKeepsWealth(env, l1, CreateIntermediate);
    StepKeepsWealth(env, l2, Fund(lamports));
    StepKeepsWealth(env, l3, SyncQuote);
  }

  /** What is left at the quote account's key: nothing, unless the tip itself is sent there. */
  function Remains(env: Env, tip: nat): Account {
    if env.tipRecipient == env.quote then EMPTY_ACCOUNT.(lamports := tip) else EMPTY_ACCOUNT
  }

  /** Closing and tipping cost at most the tip, and move everything that was wrapped into the wallet. */
  lemma CleanupKeepsWealth(env: Env, ledger: Ledger, tip: nat)
    requires Separate(env) && ApplyAll(env, ledger, [CloseQuote] + (if tip > 0 then [Tip(tip)] else [])).Some?
    ensures var after := ApplyAll(env, ledger, [CloseQuote] + (if tip > 0 then [Tip(tip)] else [])).value;
            && Wealth(after, env.wallet, env.quote) >= Wealth(ledger, env.wallet, env.quote) - tip
            && Lamports(after, env.wallet) >= Wealth(ledger, env.wallet, env.quote) - tip
            && Get(after, env.quote) == Remains(env, tip)
  {
    hide TokenState;
    var tail := if tip > 0 then [Tip(tip)] else [];
    var l1 := After(env, ledger, CloseQuote, tail);
    CloseMovesAll(env, ledger);
    if tip > 0 {
      assert tail == [Tip(tip)] + [];
      var l2 := After(env, l1, Tip(tip), []);
      TipCostsItself(env, l1, tip);
    }
  }

  lemma CloseMovesAll(env: Env, ledger: Ledger)
    requires Separate(env) && Apply(env, ledger, CloseQuote).Some?
    ensures var after := Apply(env, ledger, CloseQuote).value;
            && Lamports(after, env.wallet) == Wealth(ledger, env.wallet, env.quote)
            && Get(after, env.quote) == EMPTY_ACCOUNT
  {
    hide TokenState;
  }

  lemma TipCostsItself(env: Env, ledger: Ledger, tip: nat)
    requires Separate(env) && Apply(env, ledger, Tip(tip)).Some? && Get(ledger, env.quote) == EMPTY_ACCOUNT
    ensures var after := Apply(env, ledger, Tip(tip)).value;
            && Lamports(after, env.wallet) >= Lamports(ledger, env.wallet) - tip
            && Get(after, env.quote) == Remains(env, tip)
  {
  }

  /** The plans made, and the refusals, in each direction. */
  lemma PlansExactly(direction: string, inputAmount: int, input: BuildInput, tip: nat)
    ensures var r := PlanRoundTrip(direction, inputAmount, input, tip);
            var spend := if direction == "meteora_to_pump" then inputAmount
                         else if |input.first.data| >= 24 then U64At(input.first.data, 16) else 0;
            if direction != "meteora_to_pump" && direction != "pump_to_meteora" then r == Err(UnsupportedDirection)
            else if direction == "pump_to_meteora" && |input.first.data| < 24 then r == Err(FirstLegTooShort)
            else if spend <= 0 then r == Err(FundingNotPositive)
            else if Rejection(input).Some? then r == Err(BuildFailed(Rejection(input).value))
            else
              r == Ok([CreateQuote, CreateIntermediate, Fund(spend), SyncQuote, Execute(Built(input)), CloseQuote]
                      + (if tip > 0 then [Tip(tip)] else []))
  {
    hide Rejection, Built, U64At;
  }

  /** What leg one may spend: the input when Meteora comes first, its pinned maximum when Pump does. */
  function Spendable(direction: string, inputAmount: int, first: Instruction): int {
    if direction == "meteora_to_pump" then inputAmount else if |first.data| < 24 then 0 else U64At(first.data, 16)
  }

  lemma PlanIsSteps(direction: string, inputAmount: int, input: BuildInput, tip: nat) returns (funding: nat)
    requires PlanRoundTrip(direction, inputAmount, input, tip).Ok?
    ensures Rejection(input).None?
    ensures PlanRoundTrip(direction, inputAmount, input, tip).value == Steps(funding, input, tip)
    ensures funding == Spendable(direction, inputAmount, input.first) > 0
  {
    hide Rejection, Built;
    funding := Funding(direction, inputAmount, input.first).value;
  }

  lemma StepsKeepWealth(env: Env, ledger: Ledger, funding: nat, input: BuildInput, tip: nat)
    requires Separate(env) && Tame(env.venue, env.wallet, env.quote, env.reserve)
    requires Rejection(input).None? && Carries(env.passed, Built(input).accounts)
    requires input.user == env.wallet && input.quote == env.quote && input.intermediate == env.intermediate
    requires ApplyAll(env, ledger, Steps(funding, input, tip)).Some?
    ensures var after := ApplyAll(env, ledger, Steps(funding, input, tip)).value;
            var bound := Wealth(ledger, env.wallet, env.quote) - input.minimumProfit - NewRent(env, ledger) - tip;
            && Wealth(after, env.wallet, env.quote) >= bound
            && Lamports(after, env.wallet) >= bound
            && Get(after, env.quote) == Remains(env, tip)
  {
    hide Apply, ApplyAll, Rejection, Built, Tame, TokenState, Wealth, NewRent, Amount, Lamports, Carries, Remains;
    var run, rest := Execute(Built(input)), [CloseQuote] + (if tip > 0 then [Tip(tip)] else []);
    StepsUnfold(funding, input, tip);
    var l4 := SetupKeepsWealth(env, ledger, funding, [run] + rest);
    var l5 := After(env, l4, run, rest);
    ExecuteKeepsWealth(env, l4, input);
    CleanupKeepsWealth(env, l5, tip);
  }

  lemma ChargeCostsTheFee(env: Env, ledger: Ledger, fee: nat)
    requires Separate(env) && fee <= Lamports(ledger, env.wallet)
    ensures var charged := WithLamports(ledger, env.wallet, Lamports(ledger, env.wallet) - fee);
            && Wealth(charged, env.wallet, env.quote) == Wealth(ledger, env.wallet, env.quote) - fee
            && NewRent(env, charged) == NewRent(env, ledger)
  {
  }

  /** The conditions of the theorems below: whose accounts these are, and how venues behave. */
  ghost predicate WellFormed(env: Env, input: BuildInput) {
    && Separate(env) && Tame(env.venue, env.wallet, env.quote, env.reserve)
    && Rejection(input).None? && Carries(env.passed, Built(input).accounts)
    && input.user == env.wallet && input.quote == env.quote && input.intermediate == env.intermediate
  }

  lemma LandedOrNot(env: Env, ledger: Ledger, funding: nat, input: BuildInput, tip: nat, fee: nat)
    requires WellFormed(env, input) && fee <= Lamports(ledger, env.wallet)
    ensures var after := RunTransaction(env, ledger, fee, Steps(funding, input, tip));
            var charged := WithLamports(ledger, env.wallet, Lamports(ledger, env.wallet) - fee);
            var bound := Wealth(ledger, env.wallet, env.quote) - input.minimumProfit - NewRent(env, ledger) - tip - fee;
            && Wealth(after, env.wallet, env.quote) >= bound
            && (ApplyAll(env, charged, Steps(funding, input, tip)).Some? ==>
                  Lamports(after, env.wallet) >= bound && Get(after, env.quote) == Remains(env, tip))
  {
    hide ApplyAll, Rejection, Built, Tame, Wealth, NewRent, Carries, Steps, WithLamports, Lamports, Remains, Separate,
      BuiltConfig;
    var charged := WithLamports(ledger, env.wallet, Lamports(ledger, env.wallet) - fee);
    ChargeCostsTheFee(env, ledger, fee);
    BuiltFields(input);
    if ApplyAll(env, charged, Steps(funding, input, tip)).Some? {
      StepsKeepWealth(env, charged, funding, input, tip);
    }
  }

  /**
   The whole-wallet bound. In either direction, whatever WSOL was there before and whether the
   transaction lands or fails, wallet plus quote-account lamports fall by at most the allowed loss,
   the intermediate account's rent if it is new, the tip and the fee.
   */
  lemma WholeWalletBound(env: Env, ledger: Ledger, direction: string, inputAmount: int, input: BuildInput,
                         tip: nat, fee: nat)
    requires PlanRoundTrip(direction, inputAmount, input, tip).Ok?
    requires WellFormed(env, input) && fee <= Lamports(ledger, env.wallet)
    ensures Wealth(RunTransaction(env, ledger, fee, PlanRoundTrip(direction, inputAmount, input, tip).value),
                   env.wallet, env.quote)
            >= Wealth(ledger, env.wallet, env.quote) - input.minimumProfit - NewRent(env, ledger) - tip - fee
  {
    hide RunTransaction, WellFormed, PlanRoundTrip, Wealth, NewRent, Steps, Lamports, WithLamports, ApplyAll, Remains;
    var funding := PlanIsSteps(direction, inputAmount, input, tip);
    LandedOrNot(env, ledger, funding, input, tip, fee);
  }

  /**
   When the transaction lands, nothing stays wrapped: the wallet itself holds all that the bound promises,
   and the quote account is gone but for a tip sent to it.
   */
  lemma LandedIsUnwrapped(env: Env, ledger: Ledger, direction: string, inputAmount: int, input: BuildInput,
                          tip: nat, fee: nat)
    requires PlanRoundTrip(direction, inputAmount, input, tip).Ok?
    requires WellFormed(env, input) && fee <= Lamports(ledger, env.wallet)
    requires var charged := WithLamports(ledger, env.wallet, Lamports(ledger, env.wallet) - fee);
             ApplyAll(env, charged, PlanRoundTrip(direction, inputAmount, input, tip).value).Some?
    ensures var after := RunTransaction(env, ledger, fee, PlanRoundTrip(direction, inputAmount, input, tip).value);
            && Get(after, env.quote) == Remains(env, tip)
            && Lamports(after, env.wallet)
               >= Wealth(ledger, env.wallet, env.quote) - input.minimumProfit - NewRent(env, ledger) - tip - fee
  {
    hide RunTransaction, WellFormed, PlanRoundTrip, Wealth, NewRent, Steps, Lamports, WithLamports, ApplyAll, Remains;
    var funding := PlanIsSteps(direction, inputAmount, input, tip);
    LandedOrNot(env, ledger, funding, input, tip, fee);
  }

  // ---- What setup leaves the executor

  lemma CreateKeepsBacking(env: Env, ledger: Ledger)
    requires Separate(env) && Backed(ledger, env.quote, env.reserve) && Apply(env, ledger, CreateQuote).Some?
    ensures var after := Apply(env, ledger, CreateQuote).value;
            Lamports(after, env.quote) >= Amount(ledger, env.quote) + env.reserve
  {
    hide NewTokenData;
  }

  lemma IntermediateSparesQuote(env: Env, ledger: Ledger)
    requires Separate(env) && Apply(env, ledger, CreateIntermediate).Some?
    ensures Get(Apply(env, ledger, CreateIntermediate).value, env.quote) == Get(ledger, env.quote)
  {
    hide NewTokenData, TokenState;
  }

  lemma FundsArrive(env: Env, ledger: Ledger, lamports: nat)
    requires Separate(env) && Apply(env, ledger, Fund(lamports)).Some?
    ensures Lamports(Apply(env, ledger, Fund(lamports)).value, env.quote) == Lamports(ledger, env.quote) + lamports
  {
  }

  lemma SetupFunds(env: Env, ledger: Ledger, lamports: nat, rest: seq<Step>) returns (next: Ledger)
    requires Separate(env) && Backed(ledger, env.quote, env.reserve)
    requires var setup := [CreateQuote] + ([CreateIntermediate] + ([Fund(lamports)] + ([SyncQuote] + rest)));
             ApplyAll(env, ledger, setup).Some?
    ensures ApplyAll(env, ledger, [CreateQuote] + ([CreateIntermediate] + ([Fund(lamports)] + ([SyncQuote] + rest))))
            == ApplyAll(env, next, rest)
    ensures Amount(next, env.quote) >= Amount(ledger, env.quote) + lamports
  {
    hide Apply, ApplyAll, Separate, Backed, TokenState, Amount, SyncNative;
    var l1 := After(env, ledger, CreateQuote, [CreateIntermediate] + ([Fund(lamports)] + ([SyncQuote] + rest)));
    var l2 := After(env, l1, CreateIntermediate, [Fund(lamports)] + ([SyncQuote] + rest));
    var l3 := After(env, l2, Fund(lamports), [SyncQuote] + rest);
    next := After(env, l3, SyncQuote, rest);
    CreateKeepsBacking(env, ledger);
    IntermediateSparesQuote(env, l1);
    FundsArrive(env, l2, lamports);
    SyncApplies(env, l3);
    SyncedAmount(l3, env.quote, env.reserve);
  }

  lemma SyncApplies(env: Env, ledger: Ledger)
    ensures Apply(env, ledger, SyncQuote) == SyncNative(ledger, env.quote, env.reserve)
  {
  }

  /**
   Whatever the wallet held, a plan that lands calls the executor with at least what leg one may spend
   wrapped, on top of any WSOL that was there before.
   */
  lemma PlanFundsLegOne(env: Env, ledger: Ledger, direction: string, inputAmount: int, input: BuildInput, tip: nat)
    returns (atExecutor: Ledger)
    requires Separate(env) && Backed(ledger, env.quote, env.reserve)
    requires PlanRoundTrip(direction, inputAmount, input, tip).Ok?
    requires ApplyAll(env, ledger, PlanRoundTrip(direction, inputAmount, input, tip).value).Some?
    ensures Rejection(input).None?
    ensures Apply(env, atExecutor, Execute(Built(input))).Some?
    ensures var spendable := Spendable(direction, inputAmount, input.first);
            spendable > 0 && Amount(atExecutor, env.quote) >= Amount(ledger, env.quote) + spendable
    ensures ApplyAll(env, ledger, PlanRoundTrip(direction, inputAmount, input, tip).value)
            == ApplyAll(env, atExecutor,
                        [Execute(Built(input))] + ([CloseQuote] + (if tip > 0 then [Tip(tip)] else [])))
  {
    hide Apply, ApplyAll, PlanRoundTrip, Rejection, Built, Separate, Backed, Amount, Steps;
    var funding := PlanIsSteps(direction, inputAmount, input, tip);
    StepsUnfold(funding, input, tip);
    var rest := [CloseQuote] + (if tip > 0 then [Tip(tip)] else []);
    atExecutor := SetupFunds(env, ledger, funding, [Execute(Built(input))] + rest);
    var next := After(env, atExecutor, Execute(Built(input)), rest);
  }

  lemma StepsUnfold(funding: nat, input: BuildInput, tip: nat)
    requires Rejection(input).None?
    ensures Steps(funding, input, tip)
            == [CreateQuote] + ([CreateIntermediate] + ([Fund(funding)] + ([SyncQuote]
              + ([Execute(Built(input))] + ([CloseQuote] + (if tip > 0 then [Tip(tip)] else []))))))
  {
  }
}
