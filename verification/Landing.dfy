/**
 A transaction that lands, from an empty wallet's first round trip (scripts/lib/direct-roundtrip.mjs): for any
 funding, allowed loss, rent, tip and fee there is one that costs exactly what the whole-wallet bound allows, so
 no smaller bound holds.
 */
module Landing {
  import opened Wrappers
  import opened Bytes
  import opened Solana
  import opened Codec
  import opened Abi
  import opened Builder
  import opened Executor
  import opened CompileRun
  import opened Outcomes
  import opened PlainTrip
  import opened Wallet

  // ---- A venue pair that takes exactly `loss`

  /** The wrapped lamports of one account reduced by `loss`, where it has them. */
  function Spend(ledger: Ledger, key: Pubkey, loss: u64): Ledger {
    var account := Get(ledger, key);
    var state := TokenState(account);
    if state.Err? || account.executable || state.value.amount < loss || account.lamports < loss then ledger
    else
      var data := Patched(account.data, 64, state.value.amount - loss);
      ledger[key := account.(lamports := account.lamports - loss, data := data)]
  }

  function Taking(t: Party, loss: u64): Venue {
    (call: Instruction, ledger: Ledger) =>
      if call.programId == t.FirstProgram() then Some(WithAmount(ledger, t.intermediate, 1))
      else Some(Spend(WithAmount(ledger, t.intermediate, 0), t.quote, loss))
  }

  lemma SpendReads(ledger: Ledger, key: Pubkey, loss: u64)
    requires TokenState(Get(ledger, key)).Ok?
    ensures var before, after := Get(ledger, key), Get(Spend(ledger, key, loss), key);
            && TokenState(after).Ok? && after.executable == before.executable
            && (if !before.executable && TokenState(before).value.amount >= loss && before.lamports >= loss
                then TokenState(after).value.amount == TokenState(before).value.amount - loss
                     && after.lamports == before.lamports - loss
                else after == before)
  {
    hide ToLe, FromLe, Patched, U64At, IsTokenProgram;
  }

  lemma SpendFrame(ledger: Ledger, key: Pubkey, loss: u64)
    ensures forall k: Pubkey :: k != key ==> Get(Spend(ledger, key, loss), k) == Get(ledger, k)
    ensures Get(ledger, key).executable || TokenState(Get(ledger, key)).Err? ==> Spend(ledger, key, loss) == ledger
  {
    hide TokenState, Patched;
  }

  lemma SpendKeepsBacking(ledger: Ledger, quote: Pubkey, loss: u64, reserve: nat)
    requires Backed(ledger, quote, reserve)
    ensures Backed(Spend(ledger, quote, loss), quote, reserve)
  {
    hide TokenState, Spend;
    SpendFrame(ledger, quote, loss);
    if TokenState(Get(ledger, quote)).Ok? {
      SpendReads(ledger, quote, loss);
    }
  }

  lemma AmountKeepsBacking(ledger: Ledger, quote: Pubkey, other: Pubkey, amount: u64, reserve: nat)
    requires Backed(ledger, quote, reserve) && other != quote
    ensures Backed(WithAmount(ledger, other, amount), quote, reserve)
  {
    hide TokenState, WithAmount;
    WithAmountReads(ledger, other, amount);
  }

  lemma TakingIsTame(t: Party, loss: u64, reserve: nat)
    requires t.user != t.quote && t.intermediate != t.quote
    ensures Tame(Taking(t, loss), t.user, t.quote, reserve)
  {
    hide WithAmount, Spend, Backed, Get, PUMP_AMM_PROGRAM, METEORA_DLMM_PROGRAM;
    var venue := Taking(t, loss);
    forall call: Instruction, before: Ledger | venue(call, before).Some?
      ensures var after := venue(call, before).value;
              && Lamports(after, t.user) >= Lamports(before, t.user)
              && (Backed(before, t.quote, reserve) ==> Backed(after, t.quote, reserve))
    {
      WithAmountReads(before, t.intermediate, 1);
      WithAmountReads(before, t.intermediate, 0);
      SpendFrame(WithAmount(before, t.intermediate, 0), t.quote, loss);
      if Backed(before, t.quote, reserve) {
        AmountKeepsBacking(before, t.quote, t.intermediate, 1, reserve);
        AmountKeepsBacking(before, t.quote, t.intermediate, 0, reserve);
        SpendKeepsBacking(WithAmount(before, t.intermediate, 0), t.quote, loss, reserve);
      }
    }
  }

  /** On a ledger a round trip can start on, the two calls complete one that costs `loss`. */
  lemma TakingHasEffects(t: Party, ledger: Ledger, one: seq<byte>, two: seq<byte>, loss: u64)
    returns (middle: Ledger, end: Ledger)
    requires |two| >= 16 && t.CanStartOn(ledger) && t.user != t.quote && t.user != t.intermediate
    requires Amount(ledger, t.quote) >= loss && Lamports(ledger, t.quote) >= loss
    ensures t.Effects(Taking(t, loss), ledger, one, two, loss, middle, end)
    ensures TokenState(Get(end, t.quote)).Ok? && Lamports(end, t.quote) == Lamports(ledger, t.quote) - loss
    ensures Lamports(end, t.user) == Lamports(ledger, t.user)
  {
    hide WithAmount, Spend, Party.TouchesOnly, Get, Party.Metas, Patched, PUMP_AMM_PROGRAM, METEORA_DLMM_PROGRAM,
      NATIVE_MINT, IsTokenProgram;
    VenuesDiffer();
    middle := FirstSwapEffect(t, ledger);
    WithAmountReads(ledger, t.intermediate, 1);
    end := TakingSecond(t, middle, loss);
  }

  lemma TakingSecond(t: Party, middle: Ledger, loss: u64) returns (end: Ledger)
    requires TokenState(Get(middle, t.intermediate)).Ok? && !Get(middle, t.intermediate).executable
    requires TokenState(Get(middle, t.quote)).Ok? && !Get(middle, t.quote).executable && t.quote != t.intermediate
    requires Amount(middle, t.quote) >= loss && Lamports(middle, t.quote) >= loss
    requires t.user != t.quote && t.user != t.intermediate
    ensures end == Spend(WithAmount(middle, t.intermediate, 0), t.quote, loss)
    ensures t.TouchesOnly(middle, end)
    ensures TokenState(Get(end, t.intermediate)).Ok? && Amount(end, t.intermediate) == 0
    ensures TokenState(Get(end, t.quote)).Ok? && Amount(end, t.quote) == Amount(middle, t.quote) - loss
    ensures Lamports(end, t.quote) == Lamports(middle, t.quote) - loss
    ensures Lamports(end, t.user) == Lamports(middle, t.user)
  {
    hide TokenState, WithAmount, Spend;
    var sold := WithAmount(middle, t.intermediate, 0);
    end := Spend(sold, t.quote, loss);
    WithAmountReads(middle, t.intermediate, 0);
    SpendReads(sold, t.quote, loss);
    SpendFrame(sold, t.quote, loss);
  }

  // ---- Setup, on a wallet that has nothing but lamports

  lemma NewTokenReads(lamports: nat, program: Pubkey, mint: Pubkey, authority: Pubkey, amount: u64)
    requires IsTokenProgram(program)
    ensures TokenState(Account(lamports, program, false, NewTokenData(mint, authority, amount)))
            == Ok(TokenView(mint, authority, amount))
  {
    hide ToLe, FromLe, IsTokenProgram;
    var data := NewTokenData(mint, authority, amount);
    assert data[..32] == mint && data[32..64] == authority && data[64..72] == ToLe(amount, 8);
    U64AtToLe(data, 64, amount);
  }

  lemma CreateFresh(ledger: Ledger, payer: Pubkey, key: Pubkey, mint: Pubkey, program: Pubkey, rent: nat)
    returns (after: Ledger)
    requires Get(ledger, key) == EMPTY_ACCOUNT && payer != key && Lamports(ledger, payer) >= rent
    requires IsTokenProgram(program) && program != SYSTEM_PROGRAM
    ensures CreateIdempotent(ledger, payer, key, mint, program, rent) == Some(after)
    ensures Lamports(after, key) == rent && !Get(after, key).executable
    ensures TokenState(Get(after, key)) == Ok(TokenView(mint, payer, 0))
    ensures Get(after, payer) == Get(ledger, payer).(lamports := Lamports(ledger, payer) - rent)
    ensures forall k: Pubkey :: k != payer && k != key ==> Get(after, k) == Get(ledger, k)
  {
    hide TokenState, NewTokenData, IsTokenProgram, NATIVE_MINT, SYSTEM_PROGRAM;
    NewTokenReads(rent, program, mint, payer, 0);
    after := CreateIdempotent(ledger, payer, key, mint, program, rent).value;
  }

  lemma SyncReads(ledger: Ledger, key: Pubkey, reserve: nat)
    requires TokenState(Get(ledger, key)).Ok? && TokenState(Get(ledger, key)).value.mint == NATIVE_MINT
    requires reserve + Amount(ledger, key) <= Lamports(ledger, key) < reserve + U64_LIMIT
    ensures SyncNative(ledger, key, reserve).Some?
    ensures var after := SyncNative(ledger, key, reserve).value;
            && TokenState(Get(after, key))
               == Ok(TokenState(Get(ledger, key)).value.(amount := Lamports(ledger, key) - reserve))
            && Lamports(after, key) == Lamports(ledger, key)
            && Get(after, key).executable == Get(ledger, key).executable
            && forall k: Pubkey :: k != key ==> Get(after, k) == Get(ledger, k)
  {
    hide ToLe, FromLe, Patched, U64At, IsTokenProgram, NATIVE_MINT;
    var before := Get(ledger, key).data;
    var after := Patched(before, 64, Lamports(ledger, key) - reserve);
    assert after[..32] == before[..32] && after[32..64] == before[32..64];
  }

  /** A wallet with lamports, and neither token account yet. */
  predicate Untouched(env: Env, ledger: Ledger, funding: u64) {
    && Get(ledger, env.quote) == EMPTY_ACCOUNT && Get(ledger, env.intermediate) == EMPTY_ACCOUNT
    && Lamports(ledger, env.wallet) >= env.reserve + env.intermediateRent + funding
    && Get(ledger, PUMP_AMM_PROGRAM).executable && Get(ledger, METEORA_DLMM_PROGRAM).executable
    && !Get(ledger, env.wallet).executable
  }

  predicate Standard(env: Env) {
    && Separate(env) && env.tokenProgram == TOKEN_PROGRAM && env.mint != NATIVE_MINT
    && Ordinary(env.wallet) && Ordinary(env.quote) && Ordinary(env.intermediate)
  }

  lemma SetupLands(env: Env, ledger: Ledger, funding: u64, rest: seq<Step>) returns (ready: Ledger)
    requires Standard(env) && Untouched(env, ledger, funding)
    ensures ApplyAll(env, ledger, [CreateQuote] + ([CreateIntermediate] + ([Fund(funding)] + ([SyncQuote] + rest))))
            == ApplyAll(env, ready, rest)
    ensures forall first: bool :: Party(first, env.wallet, env.quote, env.intermediate).CanStartOn(ready)
    ensures Amount(ready, env.quote) == funding && Lamports(ready, env.quote) == env.reserve + funding
    ensures Lamports(ready, env.wallet) == Lamports(ledger, env.wallet) - env.reserve - env.intermediateRent - funding
  {
    hide ApplyAll, CreateIdempotent, SyncNative, TokenState, Get, PUMP_AMM_PROGRAM, METEORA_DLMM_PROGRAM, NATIVE_MINT,
      SYSTEM_PROGRAM, TOKEN_PROGRAM, Transfer;
    TokenIsNotSystem();
    var l1 := CreateFresh(ledger, env.wallet, env.quote, NATIVE_MINT, TOKEN_PROGRAM, env.reserve);
    var l2 := CreateFresh(l1, env.wallet, env.intermediate, env.mint, TOKEN_PROGRAM, env.intermediateRent);
    var l3 := Transferred(l2, env.wallet, env.quote, funding);
    LamportsAreNotState(Get(l2, env.quote), Lamports(l2, env.quote) + funding);
    SyncReads(l3, env.quote, env.reserve);
    ready := SyncNative(l3, env.quote, env.reserve).value;
    ApplyAllCons(env, l3, SyncQuote, rest);
    ApplyAllCons(env, l2, Fund(funding), [SyncQuote] + rest);
    ApplyAllCons(env, l1, CreateIntermediate, [Fund(funding)] + ([SyncQuote] + rest));
    ApplyAllCons(env, ledger, CreateQuote, [CreateIntermediate] + ([Fund(funding)] + ([SyncQuote] + rest)));
  }

  lemma LamportsAreNotState(account: Account, lamports: nat)
    ensures TokenState(account.(lamports := lamports)) == TokenState(account)
  {
  }

  lemma TokenIsNotSystem()
    ensures IsTokenProgram(TOKEN_PROGRAM) && TOKEN_PROGRAM != SYSTEM_PROGRAM
  {
    assert TOKEN_PROGRAM[0] == 6 && SYSTEM_PROGRAM[0] == 0;
  }

  lemma Transferred(ledger: Ledger, source: Pubkey, target: Pubkey, lamports: nat) returns (after: Ledger)
    requires source != target && Lamports(ledger, source) >= lamports
    ensures Transfer(ledger, source, target, lamports) == Some(after)
    ensures Get(after, source) == Get(ledger, source).(lamports := Lamports(ledger, source) - lamports)
    ensures Get(after, target) == Get(ledger, target).(lamports := Lamports(ledger, target) + lamports)
    ensures forall k: Pubkey :: k != source && k != target ==> Get(after, k) == Get(ledger, k)
  {
    after := Transfer(ledger, source, target, lamports).value;
  }

  // ---- The whole transaction

  lemma CleanupLands(env: Env, ledger: Ledger, tip: nat) returns (after: Ledger)
    requires Separate(env) && env.tipRecipient != env.wallet && env.tipRecipient != env.quote
    requires TokenState(Get(ledger, env.quote)).Ok?
    requires Wealth(ledger, env.wallet, env.quote) >= tip
    ensures ApplyAll(env, ledger, [CloseQuote] + (if tip > 0 then [Tip(tip)] else [])) == Some(after)
    ensures Wealth(after, env.wallet, env.quote) == Wealth(ledger, env.wallet, env.quote) - tip
  {
    hide TokenState;
    var tail := if tip > 0 then [Tip(tip)] else [];
    var closed := CloseNative(ledger, env.quote, env.wallet).value;
    ApplyAllCons(env, ledger, CloseQuote, tail);
    CloseMovesAll(env, ledger);
    if tip > 0 {
      assert tail == [Tip(tip)] + [];
      ApplyAllCons(env, closed, Tip(tip), []);
      after := Transferred(closed, env.wallet, env.tipRecipient, tip);
    } else {
      after := closed;
    }
  }

  /** Setup, run, cleanup: a transaction of this shape that costs exactly rent, loss and tip. */
  lemma StepsLand(t: Party, env: Env, ledger: Ledger, funding: u64, loss: u64, tip: nat, one: seq<byte>, two: seq<byte>)
    returns (after: Ledger)
    requires t.Routes(one, two) && IsPlain(t, env, one, two, loss)
    requires Untouched(env, ledger, funding) && loss <= funding
    requires Lamports(ledger, env.wallet) >= env.reserve + env.intermediateRent + funding + tip
    ensures ApplyAll(env, ledger, Steps(funding, PlainInput(t, one, two, loss), tip)) == Some(after)
    ensures Wealth(after, env.wallet, env.quote)
            == Wealth(ledger, env.wallet, env.quote) - env.intermediateRent - loss - tip
  {
    hide Apply, ApplyAll, Rejection, Built, Process, Direct, Party.CanStartOn, Taking, TokenState, Amount, Lamports,
      Party.Effects, IsRoute, Carries, Steps, Untouched, PlainInput, PUMP_AMM_PROGRAM, METEORA_DLMM_PROGRAM;
    var input := PlainInput(t, one, two, loss);
    var rest := [CloseQuote] + (if tip > 0 then [Tip(tip)] else []);
    StepsUnfold(funding, input, tip);
    var ready := SetupLands(env, ledger, funding, [Execute(Built(input))] + rest);
    var middle, end := TakingHasEffects(t, ready, one, two, loss);
    var run := PlainRunsDirectly(t, env.venue, ready, one, two, loss, middle, end);
    PlainKeys(t, one, two, loss);
    ExecuteLands(env, ready, input, run);
    NothingWrapped(env, ledger, funding);
    ApplyAllCons(env, ready, Execute(Built(input)), rest);
    after := CleanupLands(env, end, tip);
  }

  /** The surroundings are those of this round trip, with venues that take `loss`. */
  ghost predicate IsPlain(t: Party, env: Env, one: seq<byte>, two: seq<byte>, loss: u64) {
    && Standard(env) && env.tipRecipient != env.wallet && env.tipRecipient != env.quote
    && t == Party(t.pumpFirst, env.wallet, env.quote, env.intermediate)
    && env.venue == Taking(t, loss) && env.slot == 0
    && Rejection(PlainInput(t, one, two, loss)).None?
    && env.passed == Built(PlainInput(t, one, two, loss)).accounts
  }

  lemma PlainKeys(t: Party, one: seq<byte>, two: seq<byte>, maxLoss: u64)
    ensures var input := PlainInput(t, one, two, maxLoss);
            && input.user == t.user && input.quote == t.quote && input.intermediate == t.intermediate
            && input.minimumProfit == maxLoss && input.first.data == one
  {
  }

  lemma NothingWrapped(env: Env, ledger: Ledger, funding: u64)
    requires Untouched(env, ledger, funding)
    ensures Lamports(ledger, env.quote) == 0
  {
    hide PUMP_AMM_PROGRAM, METEORA_DLMM_PROGRAM;
  }

  lemma ExecuteLands(env: Env, ledger: Ledger, input: BuildInput, run: Run)
    requires Rejection(input).None? && env.passed == Built(input).accounts && Distinct(input)
    requires Direct(env.venue, env.slot, input, ledger) == Ok(run)
    ensures Apply(env, ledger, Execute(Built(input))) == Some(run.final)
  {
    hide Rejection, Built, Process, Direct, Carries;
    CarriesItself(Built(input).accounts);
    CompileAndRun(env.venue, env.slot, input, env.passed, ledger);
  }

  // ---- The bound is attained

  /** The surroundings of a first round trip whose venues take `loss`. */
  function FirstTrip(t: Party, one: seq<byte>, two: seq<byte>, loss: u64, reserve: nat, rent: nat): (e: Env)
    requires Rejection(PlainInput(t, one, two, loss)).None?
  {
    Env(Taking(t, loss), 0, t.user, t.quote, t.intermediate, Key(5), TOKEN_PROGRAM, Key(4), reserve, rent,
        Built(PlainInput(t, one, two, loss)).accounts)
  }

  /** A wallet that has only lamports. */
  function LamportsOnly(lamports: nat): Ledger {
    var program := Account(0, SYSTEM_PROGRAM, true, []);
    map[PUMP_AMM_PROGRAM := program, METEORA_DLMM_PROGRAM := program]
    [Key(1) := Account(lamports, SYSTEM_PROGRAM, false, [])]
  }

  lemma LamportsOnlyEntries(lamports: nat)
    ensures var ledger := LamportsOnly(lamports);
            && Get(ledger, Key(1)) == Account(lamports, SYSTEM_PROGRAM, false, [])
            && Get(ledger, Key(2)) == EMPTY_ACCOUNT && Get(ledger, Key(3)) == EMPTY_ACCOUNT
            && Get(ledger, PUMP_AMM_PROGRAM).executable && Get(ledger, METEORA_DLMM_PROGRAM).executable
  {
    KeysDiffer();
    VenuesDiffer();
    hide Key, PUMP_AMM_PROGRAM, METEORA_DLMM_PROGRAM, SYSTEM_PROGRAM;
  }

  lemma FirstTripIsPlain(t: Party, one: seq<byte>, two: seq<byte>, loss: u64, reserve: nat, rent: nat)
    requires t == Party(t.pumpFirst, Key(1), Key(2), Key(3)) && t.Routes(one, two)
    ensures Rejection(PlainInput(t, one, two, loss)).None?
    ensures var env := FirstTrip(t, one, two, loss, reserve, rent);
            && IsPlain(t, env, one, two, loss) && WellFormed(env, PlainInput(t, one, two, loss))
            && env.wallet == Key(1) && env.quote == Key(2) && env.intermediate == Key(3)
            && env.tokenProgram == TOKEN_PROGRAM && env.reserve == reserve && env.intermediateRent == rent
  {
    hide Key, Rejection, Built, Taking, Tame, PlainInput, IsRoute, PUMP_AMM_PROGRAM, METEORA_DLMM_PROGRAM, NATIVE_MINT,
      TOKEN_PROGRAM, Carries;
    KeysDiffer();
    PlainIsAccepted(t, one, two, loss);
    PlainKeys(t, one, two, loss);
    TakingIsTame(t, loss, reserve);
    CarriesItself(Built(PlainInput(t, one, two, loss)).accounts);
  }

  function Direction(pumpFirst: bool): string {
    if pumpFirst then "pump_to_meteora" else "meteora_to_pump"
  }

  /** The transaction lands and costs exactly what the whole-wallet bound allows. */
  ghost predicate CostsTheBound(env: Env, ledger: Ledger, direction: string, inputAmount: int, input: BuildInput,
                                tip: nat, fee: nat)
  {
    && WellFormed(env, input) && fee <= Lamports(ledger, env.wallet)
    && PlanRoundTrip(direction, inputAmount, input, tip).Ok?
    && var plan := PlanRoundTrip(direction, inputAmount, input, tip).value;
    && ApplyAll(env, WithLamports(ledger, env.wallet, Lamports(ledger, env.wallet) - fee), plan).Some?
    && Wealth(RunTransaction(env, ledger, fee, plan), env.wallet, env.quote)
       == Wealth(ledger, env.wallet, env.quote) - input.minimumProfit - NewRent(env, ledger) - tip - fee
  }

  /**
   In both directions, for any funding, an allowed loss within it, and any reserve, rent, tip and fee, there is
   such a transaction.
   */
  lemma BoundIsAttained(pumpFirst: bool, funding: u64, loss: u64, reserve: nat, rent: nat, tip: nat, fee: nat)
    returns (env: Env, ledger: Ledger, input: BuildInput)
    requires 0 < funding && loss <= funding
    ensures CostsTheBound(env, ledger, Direction(pumpFirst), funding, input, tip, fee)
    ensures input.minimumProfit == loss && NewRent(env, ledger) == rent && env.reserve == reserve
    ensures Spendable(Direction(pumpFirst), funding, input.first) == funding
  {
    hide Key, Built, Rejection, Taking, WellFormed, Standard, ApplyAll, Steps, IsRoute, PlainInput, FirstTrip, IsPlain,
      PUMP_AMM_PROGRAM, METEORA_DLMM_PROGRAM, NATIVE_MINT, TOKEN_PROGRAM, SYSTEM_PROGRAM, LamportsOnly, Get;
    var t := Party(pumpFirst, Key(1), Key(2), Key(3));
    var one, two := SmallestRoute(t, funding);
    FirstTripIsPlain(t, one, two, loss, reserve, rent);
    env, input := FirstTrip(t, one, two, loss, reserve, rent), PlainInput(t, one, two, loss);
    ledger := LamportsOnly(fee + (reserve + rent + funding + tip));
    PlainKeys(t, one, two, loss);
    ChargedIsUntouched(env, fee, reserve + rent + funding + tip, funding);
    var charged := WithLamports(ledger, env.wallet, Lamports(ledger, env.wallet) - fee);
    var after := StepsLand(t, env, charged, funding, loss, tip, one, two);
    PlanOf(pumpFirst, input, funding, tip);
  }

  lemma PlanOf(pumpFirst: bool, input: BuildInput, funding: u64, tip: nat)
    requires Rejection(input).None? && funding > 0
    requires pumpFirst ==> |input.first.data| >= 24 && U64At(input.first.data, 16) == funding
    ensures PlanRoundTrip(Direction(pumpFirst), funding, input, tip) == Ok(Steps(funding, input, tip))
    ensures Spendable(Direction(pumpFirst), funding, input.first) == funding
  {
    hide Rejection, Steps;
  }

  lemma ChargedIsUntouched(env: Env, fee: nat, rest: nat, funding: u64)
    requires env.wallet == Key(1) && env.quote == Key(2) && env.intermediate == Key(3)
    requires env.tokenProgram == TOKEN_PROGRAM
    requires rest >= env.reserve + env.intermediateRent + funding
    ensures var ledger := LamportsOnly(fee + rest);
            var charged := WithLamports(ledger, env.wallet, Lamports(ledger, env.wallet) - fee);
            && Lamports(ledger, env.wallet) == fee + rest && Lamports(charged, env.wallet) == rest
            && Untouched(env, charged, funding)
            && NewRent(env, ledger) == env.intermediateRent
            && Wealth(ledger, env.wallet, env.quote) == fee + rest && Wealth(charged, env.wallet, env.quote) == rest
  {
    hide Key, LamportsOnly, PUMP_AMM_PROGRAM, METEORA_DLMM_PROGRAM, TOKEN_PROGRAM, SYSTEM_PROGRAM;
    KeysDiffer();
    TokenIsNotSystem();
    LamportsOnlyEntries(fee + rest);
  }
}
