/**
 What the program's guards let through, exactly: which of the user's token accounts it can be handed,
 and which balances it can end with (programs/atomic-executor/src/lib.rs). Where a guard is weaker than
 it reads, there is a completed run that shows it, from the bytes on.
 */
module Outcomes {
  import opened Wrappers
  import opened Bytes
  import opened Solana
  import opened Codec
  import opened Abi
  import opened Executor

  // ---- The token accounts a run is handed

  /** Entry `i` of the account list is a token account of the user. */
  predicate IsTokenEntry(accounts: seq<AccountMeta>, ledger: Ledger, i: nat)
    requires i < |accounts|
  {
    var account := Get(ledger, accounts[i].key);
    IsTokenAccountOf(account, accounts[0].key) && !account.executable
  }

  /**
   The scan starts after the signer: the entries that hold a token account of the user are 1 and 2, and
   entry 0 as well exactly when the signing account is itself a token account with itself as authority.
   */
  lemma TokenEntriesExactly(c: Config, slot: u64, accounts: seq<AccountMeta>, ledger: Ledger)
    requires Admit(c, slot, accounts, ledger).Ok?
    ensures |accounts| >= 3
    ensures forall i :: 3 <= i < |accounts| ==> !IsTokenEntry(accounts, ledger, i)
    ensures !Get(ledger, accounts[1].key).executable && !Get(ledger, accounts[2].key).executable ==>
              IsTokenEntry(accounts, ledger, 1) && IsTokenEntry(accounts, ledger, 2)
    ensures (forall i :: 0 <= i < |accounts| && IsTokenEntry(accounts, ledger, i) ==> i == 1 || i == 2)
            <==> !IsTokenEntry(accounts, ledger, 0)
  {
    hide Admit, IsRoute, IsTokenAccountOf, Get, Amount, Mint;
    AdmitsExactly(c, slot, accounts, ledger);
    forall i | 3 <= i < |accounts|
      ensures !IsTokenEntry(accounts, ledger, i)
    {
      assert SkippedByScan(c, i) || !IsTokenAccountOf(Get(ledger, accounts[i].key), accounts[0].key);
    }
  }

  /** The user's token accounts a run is handed are the quote and the intermediate account, and no others. */
  predicate OnlyTheTwo(accounts: seq<AccountMeta>, ledger: Ledger)
    requires |accounts| >= 3
  {
    forall i :: 0 <= i < |accounts| && IsTokenEntry(accounts, ledger, i) ==>
                  accounts[i].key == accounts[1].key || accounts[i].key == accounts[2].key
  }

  /** The signing account is itself a token account it controls, apart from the two. */
  predicate SignerIsAThird(accounts: seq<AccountMeta>, ledger: Ledger)
    requires |accounts| >= 3
  {
    IsTokenEntry(accounts, ledger, 0)
    && accounts[0].key != accounts[1].key && accounts[0].key != accounts[2].key
  }

  /** As accounts, then, a third one is passed in exactly when the signer is one. */
  lemma OnlySignerEscapesTheScan(c: Config, slot: u64, accounts: seq<AccountMeta>, ledger: Ledger)
    requires Admit(c, slot, accounts, ledger).Ok?
    ensures |accounts| >= 3 && (OnlyTheTwo(accounts, ledger) <==> !SignerIsAThird(accounts, ledger))
  {
    hide Admit, IsTokenEntry;
    TokenEntriesExactly(c, slot, accounts, ledger);
    forall i | 0 <= i < |accounts| && IsTokenEntry(accounts, ledger, i)
      ensures i < 3
    {
    }
  }

  /** Entry `i` is the quote or the intermediate account. */
  predicate IsPairEntry(accounts: seq<AccountMeta>, i: nat)
    requires 3 <= |accounts| && i < |accounts|
  {
    accounts[i].key == accounts[1].key || accounts[i].key == accounts[2].key
  }

  /**
   Quote and intermediate differ, and after entry 2 neither is passed in again but in a program's place.
   Unless they are executable they are then passed in once each exactly when the signer is neither.
   */
  lemma QuoteAndIntermediateAppearOnce(c: Config, slot: u64, accounts: seq<AccountMeta>, ledger: Ledger)
    requires Admit(c, slot, accounts, ledger).Ok?
    ensures |accounts| >= 3 && accounts[1].key != accounts[2].key
    ensures forall i :: 3 <= i < |accounts| && IsPairEntry(accounts, i) ==>
                          i == c.firstProgramIndex || i == c.secondProgramIndex
    ensures !Get(ledger, accounts[1].key).executable && !Get(ledger, accounts[2].key).executable ==>
              ((forall i :: 0 <= i < |accounts| && IsPairEntry(accounts, i) ==> i == 1 || i == 2)
               <==> accounts[0].key != accounts[1].key && accounts[0].key != accounts[2].key)
  {
    hide Admit, IsRoute, IsTokenAccountOf, Get, Amount, Mint;
    AdmitsExactly(c, slot, accounts, ledger);
    forall i | 3 <= i < |accounts| && IsPairEntry(accounts, i)
      ensures SkippedByScan(c, i)
    {
    }
    assert IsPairEntry(accounts, 0) <==> accounts[0].key == accounts[1].key || accounts[0].key == accounts[2].key;
  }

  // ---- Runs that complete

  function Key(n: byte): Pubkey {
    seq(32, i => n)
  }

  lemma KeysDiffer()
    ensures forall a: byte, b: byte :: a != b ==> Key(a) != Key(b)
    ensures forall n: byte :: n <= 5 ==> Key(n) != PUMP_AMM_PROGRAM && Key(n) != METEORA_DLMM_PROGRAM
    ensures Key(5) != NATIVE_MINT
  {
    assert forall n: byte :: Key(n)[0] == n && Key(n)[1] == n;
    assert PUMP_AMM_PROGRAM[0] == 12 && METEORA_DLMM_PROGRAM[1] == 233 && NATIVE_MINT[0] == 6;
  }

  function TokenAccount(mint: Pubkey, authority: Pubkey, amount: u64): Account {
    Account(0, TOKEN_PROGRAM, false, mint + authority + ToLe(amount, 8))
  }

  lemma TokenAccountReads(mint: Pubkey, authority: Pubkey, amount: u64)
    ensures TokenState(TokenAccount(mint, authority, amount)) == Ok(TokenView(mint, authority, amount))
    ensures !TokenAccount(mint, authority, amount).executable
  {
    hide ToLe, FromLe;
    var data := mint + authority + ToLe(amount, 8);
    assert data[..32] == mint && data[32..64] == authority && data[64..72] == ToLe(amount, 8);
    U64AtToLe(data, 64, amount);
  }

  /** The ledger with the amount of one token account replaced; no change where there is none. */
  function WithAmount(ledger: Ledger, key: Pubkey, amount: u64): Ledger {
    var account := Get(ledger, key);
    if TokenState(account).Err? || account.executable then ledger
    else ledger[key := account.(data := Patched(account.data, 64, amount))]
  }

  lemma WithAmountReads(ledger: Ledger, key: Pubkey, amount: u64)
    ensures TokenState(Get(ledger, key)).Ok? && !Get(ledger, key).executable ==>
              TokenState(Get(WithAmount(ledger, key, amount), key))
              == Ok(TokenState(Get(ledger, key)).value.(amount := amount))
    ensures Get(WithAmount(ledger, key, amount), key).executable == Get(ledger, key).executable
    ensures Get(WithAmount(ledger, key, amount), key).lamports == Get(ledger, key).lamports
    ensures Get(ledger, key).executable ==> WithAmount(ledger, key, amount) == ledger
    ensures forall k: Pubkey :: k != key ==> Get(WithAmount(ledger, key, amount), k) == Get(ledger, k)
  {
    hide ToLe, FromLe, Patched, U64At, IsTokenProgram;
    if TokenState(Get(ledger, key)).Ok? {
      var before := Get(ledger, key).data;
      var after := Patched(before, 64, amount);
      assert after[..32] == before[..32] && after[32..64] == before[32..64];
    }
  }

  // ---- Plain round trips

  /** The direction of a round trip, its signer and its two accounts. */
  datatype Party = Party(pumpFirst: bool, user: Pubkey, quote: Pubkey, intermediate: Pubkey) {
    function FirstProgram(): Pubkey { if pumpFirst then PUMP_AMM_PROGRAM else METEORA_DLMM_PROGRAM }

    function SecondProgram(): Pubkey { if pumpFirst then METEORA_DLMM_PROGRAM else PUMP_AMM_PROGRAM }

    function Accounts(): seq<AccountMeta> {
      [AccountMeta(user, true, true), AccountMeta(quote, false, true), AccountMeta(intermediate, false, true),
       AccountMeta(PUMP_AMM_PROGRAM, false, false), AccountMeta(METEORA_DLMM_PROGRAM, false, false)]
    }

    /** Both legs are passed the quote, the intermediate and the signing account, writable. */
    function Metas(): seq<AccountMeta> {
      [AccountMeta(quote, false, true), AccountMeta(intermediate, false, true), AccountMeta(user, false, true)]
    }

    function Configuration(one: seq<byte>, two: seq<byte>, maxLoss: u64): Config {
      Config(if pumpFirst then 3 else 4, if pumpFirst then 4 else 3, 1, 2, 8, maxLoss, 0,
             TRIO_REFS, TRIO_REFS, one, two)
    }

    function FirstCall(one: seq<byte>): Instruction { Instruction(FirstProgram(), Metas(), one) }

    function SecondCall(two: seq<byte>): Instruction
      requires |two| >= 16
    {
      Instruction(SecondProgram(), Metas(), Patched(two, 8, 1))
    }

    ghost predicate Routes(one: seq<byte>, two: seq<byte>) {
      && IsRoute(FirstProgram(), one, SecondProgram(), two, 8)
      && 24 <= |one| <= 32 && 24 <= |two| <= 32
    }

    /** A ledger such a round trip can start on. */
    predicate CanStartOn(ledger: Ledger) {
      && FreshPair(ledger, user, quote, intermediate)
      && !Get(ledger, quote).executable && !Get(ledger, intermediate).executable
      && Get(ledger, PUMP_AMM_PROGRAM).executable && Get(ledger, METEORA_DLMM_PROGRAM).executable
    }

    /** Nothing but its three accounts changes, and none of them if executable. */
    ghost predicate TouchesOnly(before: Ledger, after: Ledger) {
      forall k: Pubkey :: Get(before, k) != Get(after, k) ==>
                            (k == user || k == quote || k == intermediate) && !Get(before, k).executable
    }

    /** The signing account is a token account apart from the pair, so the calls can change its amount. */
    predicate HasThird(ledger: Ledger) {
      TokenState(Get(ledger, user)).Ok? && !Get(ledger, user).executable && user != quote && user != intermediate
    }

    /** The final quote balance, and what is left in the signer's own token account, where it has one. */
    predicate EndsWith(before: Ledger, after: Ledger, own: u64, final: u64) {
      Amount(after, quote) == final && (HasThird(before) ==> Amount(after, user) == own)
    }

    /** What two calls must do for the round trip around them to complete. */
    ghost predicate Effects(venue: Venue, ledger: Ledger, one: seq<byte>, two: seq<byte>, maxLoss: u64,
                            middle: Ledger, end: Ledger)
      requires |two| >= 16
    {
      && venue(FirstCall(one), ledger) == Some(middle) && venue(SecondCall(two), middle) == Some(end)
      && TouchesOnly(ledger, middle) && TouchesOnly(middle, end)
      && Amount(middle, intermediate) == 1
      && TokenState(Get(end, intermediate)).Ok? && Amount(end, intermediate) == 0
      && TokenState(Get(end, quote)).Ok? && Amount(end, quote) >= Amount(ledger, quote) - maxLoss
    }
  }

  const TRIO_REFS: seq<AccountRef> := [AccountRef(1, 2), AccountRef(2, 2), AccountRef(0, 2)]

  /** The smallest instructions of a route: a first leg of one, under `limit` where it is Pump's, and a template. */
  lemma SmallestRoute(t: Party, limit: u64) returns (one: seq<byte>, two: seq<byte>)
    requires limit > 0
    ensures t.Routes(one, two)
    ensures t.pumpFirst ==> U64At(one, 16) == limit
  {
    hide ToLe, FromLe;
    VenuesDiffer();
    var unit: u64 := 1;
    var swap := METEORA_SWAP2 + ToLe(unit, 8) + ToLe(0, 8) + ToLe(2, 4) + [0, 0, 0, 0];
    assert MeteoraLayout(swap, unit, 0, 0);
    MeteoraLayoutFields(swap, unit, 0, 0);
    if t.pumpFirst {
      var buy := PUMP_BUY + ToLe(unit, 8) + ToLe(limit, 8) + [];
      assert PumpLayout(buy, PUMP_BUY, unit, limit, []);
      PumpLayoutFields(buy, PUMP_BUY, unit, limit, []);
      assert IsPumpBuy(buy);
      one, two := buy, swap;
    } else {
      var sell := PUMP_SELL + ToLe(unit, 8) + ToLe(unit, 8) + [];
      assert PumpLayout(sell, PUMP_SELL, unit, unit, []);
      PumpLayoutFields(sell, PUMP_SELL, unit, unit, []);
      assert IsPumpSellTemplate(sell);
      one, two := swap, sell;
    }
  }

  lemma TouchingIsAllowed(t: Party, before: Ledger, after: Ledger)
    requires t.TouchesOnly(before, after)
    ensures RuntimeAllows(t.Metas(), before, after)
  {
    var trio := t.Metas();
    assert trio[0].key == t.quote && trio[1].key == t.intermediate && trio[2].key == t.user;
    assert trio[0].isWritable && trio[1].isWritable && trio[2].isWritable;
    assert GrantsWrite(trio, t.quote) && GrantsWrite(trio, t.intermediate) && GrantsWrite(trio, t.user);
    hide Get;
  }

  lemma TrioIsDenoted(t: Party)
    ensures Denotes(t.Accounts(), TRIO_REFS, t.Metas())
  {
  }

  lemma PlainCompletes(t: Party, venue: Venue, ledger: Ledger, one: seq<byte>, two: seq<byte>, maxLoss: u64,
                       middle: Ledger, end: Ledger) returns (run: Run)
    requires |two| >= 16 && t.Effects(venue, ledger, one, two, maxLoss, middle, end)
    ensures Completes(venue, t.Configuration(one, two, maxLoss), t.Accounts(), ledger, run)
    ensures run.middle == middle && run.final == end && run.first.programId == t.FirstProgram()
  {
    hide Amount, TokenState, Patched, Party.TouchesOnly, RuntimeAllows, Denotes, Party.Metas, Get,
      PUMP_AMM_PROGRAM, METEORA_DLMM_PROGRAM;
    TouchingIsAllowed(t, ledger, middle);
    TouchingIsAllowed(t, middle, end);
    TrioIsDenoted(t);
    run := Run(t.FirstCall(one), middle, 1, t.SecondCall(two), end);
  }

  lemma PlainIsAdmissible(t: Party, one: seq<byte>, two: seq<byte>, maxLoss: u64, ledger: Ledger)
    requires t.CanStartOn(ledger) && t.Routes(one, two)
    ensures Admissible(t.Configuration(one, two, maxLoss), 0, t.Accounts(), ledger)
  {
    hide IsRoute, FreshPair, Get, IsTokenAccountOf;
  }

  lemma PlainIsEncodable(t: Party, one: seq<byte>, two: seq<byte>, maxLoss: u64)
    requires t.Routes(one, two)
    ensures Encodable(t.Configuration(one, two, maxLoss))
  {
    hide IsRoute;
  }

  /**
   A venue pair: the first swap yields one intermediate token; the second takes it, leaving `final` of the quote
   token, and sets the signer's own token account, where it has one, to `own`.
   */
  function TwoSwaps(t: Party, own: u64, final: u64): Venue {
    (call: Instruction, ledger: Ledger) =>
      if call.programId == t.FirstProgram() then Some(WithAmount(ledger, t.intermediate, 1))
      else Some(WithAmount(WithAmount(WithAmount(ledger, t.user, own), t.intermediate, 0), t.quote, final))
  }

  lemma FirstSwapEffect(t: Party, ledger: Ledger) returns (middle: Ledger)
    requires TokenState(Get(ledger, t.intermediate)).Ok? && !Get(ledger, t.intermediate).executable
    ensures middle == WithAmount(ledger, t.intermediate, 1)
    ensures t.TouchesOnly(ledger, middle) && Amount(middle, t.intermediate) == 1
    ensures forall k: Pubkey :: TokenState(Get(middle, k)).Ok? == TokenState(Get(ledger, k)).Ok?
    ensures forall k: Pubkey :: Get(middle, k).executable == Get(ledger, k).executable
    ensures forall k: Pubkey :: k != t.intermediate ==> Amount(middle, k) == Amount(ledger, k)
  {
    hide TokenState, WithAmount;
    middle := WithAmount(ledger, t.intermediate, 1);
    WithAmountReads(ledger, t.intermediate, 1);
  }

  lemma SecondSwapEffect(t: Party, middle: Ledger, own: u64, final: u64) returns (end: Ledger)
    requires TokenState(Get(middle, t.intermediate)).Ok? && !Get(middle, t.intermediate).executable
    requires TokenState(Get(middle, t.quote)).Ok? && !Get(middle, t.quote).executable && t.quote != t.intermediate
    ensures end == WithAmount(WithAmount(WithAmount(middle, t.user, own), t.intermediate, 0), t.quote, final)
    ensures t.TouchesOnly(middle, end)
    ensures TokenState(Get(end, t.intermediate)).Ok? && Amount(end, t.intermediate) == 0
    ensures TokenState(Get(end, t.quote)).Ok? && t.EndsWith(middle, end, own, final)
  {
    hide TokenState, WithAmount;
    var spent := WithAmount(middle, t.user, own);
    var sold := WithAmount(spent, t.intermediate, 0);
    end := WithAmount(sold, t.quote, final);
    WithAmountReads(middle, t.user, own);
    WithAmountReads(spent, t.intermediate, 0);
    WithAmountReads(sold, t.quote, final);
  }

  lemma SwapsHaveEffects(t: Party, ledger: Ledger, own: u64, final: u64, one: seq<byte>, two: seq<byte>, maxLoss: u64)
    returns (middle: Ledger, end: Ledger)
    requires |two| >= 16 && t.CanStartOn(ledger) && final >= Amount(ledger, t.quote) - maxLoss
    ensures t.Effects(TwoSwaps(t, own, final), ledger, one, two, maxLoss, middle, end)
    ensures t.EndsWith(ledger, end, own, final)
  {
    hide WithAmount, Party.TouchesOnly, Get, Party.Metas, Patched, PUMP_AMM_PROGRAM, METEORA_DLMM_PROGRAM, NATIVE_MINT,
      IsTokenProgram;
    VenuesDiffer();
    middle := FirstSwapEffect(t, ledger);
    end := SecondSwapEffect(t, middle, own, final);
  }

  /**
   In either direction, from any such ledger, every final balance the guard accepts is the end of some completed
   run; and if the signer is itself another token account, so is every balance of it.
   */
  lemma EveryAllowedOutcomeHappens(t: Party, ledger: Ledger, own: u64, final: u64, maxLoss: u64)
    returns (venue: Venue, data: seq<byte>)
    requires t.CanStartOn(ledger) && FloorMet(Amount(ledger, t.quote), final, maxLoss)
    ensures Parse(data).Ok? && Parse(data).value.minimumProfit == maxLoss
    ensures var run := Process(venue, 0, t.Accounts(), data, ledger);
            && run.Ok? && run.value.first.programId == t.FirstProgram()
            && t.EndsWith(ledger, run.value.final, own, final)
  {
    hide Serialize, Parse, Process, IsRoute, TwoSwaps, Party.CanStartOn, Admissible, Amount, Completes, Party.EndsWith,
      Party.Effects, TRIO_REFS;
    var one, two := SmallestRoute(t, 1);
    var c := t.Configuration(one, two, maxLoss);
    PlainIsEncodable(t, one, two, maxLoss);
    data := Serialize(c);
    venue := TwoSwaps(t, own, final);
    ParseOfSerialize(c);
    var middle, end := SwapsHaveEffects(t, ledger, own, final, one, two, maxLoss);
    PlainIsAdmissible(t, one, two, maxLoss, ledger);
    var run := PlainCompletes(t, venue, ledger, one, two, maxLoss, middle, end);
    SucceedsExactly(venue, 0, t.Accounts(), data, ledger, run);
  }

  /** The round trips exhibited below: user 1 and intermediate account 3, with Pump first. */
  function Plain(quote: Pubkey): Party {
    Party(true, Key(1), quote, Key(3))
  }

  /** The two venues, the pair, and `own` as the user's own account unless it is the quote account. */
  function StartLedger(user: Pubkey, quote: Pubkey, intermediate: Pubkey, own: Account, start: u64): Ledger {
    var program := Account(0, SYSTEM_PROGRAM, true, []);
    map[PUMP_AMM_PROGRAM := program, METEORA_DLMM_PROGRAM := program]
    [user := own][quote := TokenAccount(NATIVE_MINT, user, start)][intermediate := TokenAccount(Key(5), user, 0)]
  }

  predicate Ordinary(key: Pubkey) {
    key != PUMP_AMM_PROGRAM && key != METEORA_DLMM_PROGRAM
  }

  lemma StartLedgerEntries(user: Pubkey, quote: Pubkey, intermediate: Pubkey, own: Account, start: u64)
    requires Ordinary(user) && Ordinary(quote) && Ordinary(intermediate)
    requires quote != intermediate && user != intermediate
    ensures var ledger := StartLedger(user, quote, intermediate, own, start);
            && Get(ledger, quote) == TokenAccount(NATIVE_MINT, user, start)
            && Get(ledger, intermediate) == TokenAccount(Key(5), user, 0)
            && (user != quote ==> Get(ledger, user) == own)
            && Get(ledger, PUMP_AMM_PROGRAM).executable && Get(ledger, METEORA_DLMM_PROGRAM).executable
  {
    VenuesDiffer();
    hide TokenAccount, PUMP_AMM_PROGRAM, METEORA_DLMM_PROGRAM, NATIVE_MINT, Key;
  }

  lemma StartLedgerIsStartable(user: Pubkey, quote: Pubkey, intermediate: Pubkey, own: Account, start: u64)
    requires Ordinary(user) && Ordinary(quote) && Ordinary(intermediate)
    requires quote != intermediate && user != intermediate
    ensures var ledger := StartLedger(user, quote, intermediate, own, start);
            forall pumpFirst: bool :: Party(pumpFirst, user, quote, intermediate).CanStartOn(ledger)
    ensures Amount(StartLedger(user, quote, intermediate, own, start), quote) == start
  {
    KeysDiffer();
    StartLedgerEntries(user, quote, intermediate, own, start);
    TokenAccountReads(NATIVE_MINT, user, start);
    TokenAccountReads(Key(5), user, 0);
    hide TokenAccount, TokenState, StartLedger, Get, IsTokenProgram, PUMP_AMM_PROGRAM, METEORA_DLMM_PROGRAM,
      NATIVE_MINT, Key;
  }

  /** Some run with this limit succeeds, taking the quote account from `start` to `final`. */
  ghost predicate CanEnd(start: u64, final: u64, maxLoss: u64) {
    exists venue: Venue, slot: u64, accounts: seq<AccountMeta>, data: seq<byte>, ledger: Ledger ::
      Ends(venue, slot, accounts, data, ledger, start, final, maxLoss)
  }

  predicate Ends(venue: Venue, slot: u64, accounts: seq<AccountMeta>, data: seq<byte>, ledger: Ledger,
                 start: u64, final: u64, maxLoss: u64) {
    && Parse(data).Ok? && Parse(data).value.minimumProfit == maxLoss && |accounts| >= 3
    && Amount(ledger, accounts[1].key) == start
    && var run := Process(venue, slot, accounts, data, ledger);
    run.Ok? && Amount(run.value.final, accounts[1].key) == final
  }

  /** The final balances of successful runs are exactly those the guard accepts. */
  lemma OutcomesExactly(start: u64, final: u64, maxLoss: u64)
    ensures CanEnd(start, final, maxLoss) <==> FloorMet(start, final, maxLoss)
  {
    hide Ends;
    forall venue: Venue, slot: u64, accounts: seq<AccountMeta>, data: seq<byte>, ledger: Ledger |
      Ends(venue, slot, accounts, data, ledger, start, final, maxLoss)
      ensures FloorMet(start, final, maxLoss)
    {
      EndsAboveFloor(venue, slot, accounts, data, ledger, start, final, maxLoss);
    }
    if FloorMet(start, final, maxLoss) {
      KeysDiffer();
      var ledger := StartLedger(Key(1), Key(2), Key(3), EMPTY_ACCOUNT, start);
      StartLedgerIsStartable(Key(1), Key(2), Key(3), EMPTY_ACCOUNT, start);
      var t := Plain(Key(2));
      var venue, data := EveryAllowedOutcomeHappens(t, ledger, 0, final, maxLoss);
      FiveAccountsEnd(venue, data, ledger, start, final, maxLoss);
    }
  }

  lemma FiveAccountsEnd(venue: Venue, data: seq<byte>, ledger: Ledger, start: u64, final: u64, maxLoss: u64)
    requires Amount(ledger, Key(2)) == start
    requires Parse(data).Ok? && Parse(data).value.minimumProfit == maxLoss
    requires var run := Process(venue, 0, Plain(Key(2)).Accounts(), data, ledger);
             run.Ok? && Amount(run.value.final, Key(2)) == final
    ensures Ends(venue, 0, Plain(Key(2)).Accounts(), data, ledger, start, final, maxLoss)
  {
    hide Parse, Process, Amount, Key;
  }

  lemma EndsAboveFloor(venue: Venue, slot: u64, accounts: seq<AccountMeta>, data: seq<byte>, ledger: Ledger,
                       start: u64, final: u64, maxLoss: u64)
    requires Ends(venue, slot, accounts, data, ledger, start, final, maxLoss)
    ensures FloorMet(start, final, maxLoss)
  {
    hide Parse, Process, Amount;
    SuccessfulRoundTrip(venue, slot, accounts, data, ledger);
  }

  /**
   The older wording promises a final balance of at least `start + minimum_profit`. All successful runs
   with that field meet it exactly when the field is zero; otherwise some end with the whole loss taken.
   */
  lemma ProfitFloorOnlyAtZero(minimumProfit: u64)
    ensures (forall start: u64, final: u64 :: CanEnd(start, final, minimumProfit) ==> final >= start + minimumProfit)
            <==> minimumProfit == 0
    ensures minimumProfit > 0 ==> CanEnd(minimumProfit, 0, minimumProfit)
  {
    hide CanEnd;
    forall start: u64, final: u64
      ensures CanEnd(start, final, minimumProfit) <==> FloorMet(start, final, minimumProfit)
    {
      OutcomesExactly(start, final, minimumProfit);
    }
    if minimumProfit > 0 {
      assert FloorMet(minimumProfit, 0, minimumProfit);
    }
  }

  lemma OwnAccountIsAThird(ledger: Ledger, amount: u64)
    requires Get(ledger, Key(1)) == TokenAccount(Key(5), Key(1), amount)
    ensures SignerIsAThird(Plain(Key(2)).Accounts(), ledger) && Amount(ledger, Key(1)) == amount
    ensures TokenState(Get(ledger, Key(1))).Ok? && !Get(ledger, Key(1)).executable
  {
    hide Key, TokenAccount, TokenState, PUMP_AMM_PROGRAM, METEORA_DLMM_PROGRAM;
    KeysDiffer();
    TokenAccountReads(Key(5), Key(1), amount);
  }

  /** A completed run whose signer is itself a third token account, with itself as authority. */
  lemma SignerCanBeAThird()
    ensures exists venue: Venue, slot: u64, accounts: seq<AccountMeta>, data: seq<byte>, ledger: Ledger ::
              Process(venue, slot, accounts, data, ledger).Ok? && |accounts| >= 3 && SignerIsAThird(accounts, ledger)
  {
    hide SignerLoses, Key, Process, SignerIsAThird;
    var venue, data, ledger := SignerCanLose(1, 0);
    SignerLosesParts(venue, data, ledger, 1, 0);
  }

  /** A run that succeeds and takes that third account of the signer's from `before` to `after`. */
  predicate SignerLoses(venue: Venue, data: seq<byte>, ledger: Ledger, before: u64, after: u64) {
    var accounts := Plain(Key(2)).Accounts();
    var run := Process(venue, 0, accounts, data, ledger);
    && run.Ok? && SignerIsAThird(accounts, ledger)
    && Amount(ledger, accounts[0].key) == before && Amount(run.value.final, accounts[0].key) == after
  }

  lemma SignerLosesParts(venue: Venue, data: seq<byte>, ledger: Ledger, before: u64, after: u64)
    requires SignerLoses(venue, data, ledger, before, after)
    ensures Process(venue, 0, Plain(Key(2)).Accounts(), data, ledger).Ok?
    ensures SignerIsAThird(Plain(Key(2)).Accounts(), ledger)
  {
    hide Process, SignerIsAThird, Key, Amount;
  }

  /** The frame stops there: for any two balances, some successful run takes that account from one to the other. */
  lemma SignerCanLose(before: u64, after: u64) returns (venue: Venue, data: seq<byte>, ledger: Ledger)
    ensures SignerLoses(venue, data, ledger, before, after)
  {
    hide TokenAccount, Key, Party.CanStartOn, StartLedger, Process, SignerIsAThird, FloorMet, Parse, Amount, TokenState,
      PUMP_AMM_PROGRAM, METEORA_DLMM_PROGRAM;
    KeysDiffer();
    var own := TokenAccount(Key(5), Key(1), before);
    ledger := StartLedger(Key(1), Key(2), Key(3), own, 0);
    StartLedgerEntries(Key(1), Key(2), Key(3), own, 0);
    StartLedgerIsStartable(Key(1), Key(2), Key(3), own, 0);
    NoLossIsAllowed();
    OwnAccountIsAThird(ledger, before);
    venue, data := EveryAllowedOutcomeHappens(Plain(Key(2)), ledger, after, 0, 0);
  }

  lemma NoLossIsAllowed()
    ensures FloorMet(0, 0, 0)
  {
  }

  /** A completed run whose signer is itself the quote account, so that account is passed in twice. */
  lemma SignerCanBeTheQuote()
    ensures exists venue: Venue, slot: u64, accounts: seq<AccountMeta>, data: seq<byte>, ledger: Ledger ::
              Process(venue, slot, accounts, data, ledger).Ok? && |accounts| >= 3
              && accounts[0].key == accounts[1].key && !SignerIsAThird(accounts, ledger)
  {
    KeysDiffer();
    hide Party.CanStartOn, Key, StartLedger;
    var ledger := StartLedger(Key(1), Key(1), Key(3), EMPTY_ACCOUNT, 0);
    StartLedgerIsStartable(Key(1), Key(1), Key(3), EMPTY_ACCOUNT, 0);
    var venue, data := EveryAllowedOutcomeHappens(Plain(Key(1)), ledger, 0, 0, 0);
    var accounts := Plain(Key(1)).Accounts();
    assert accounts[0].key == accounts[1].key && !SignerIsAThird(accounts, ledger);
  }

  /** Both directions complete, from bytes the program parses to a second leg sized by the first. */
  lemma BothDirectionsComplete(pumpFirst: bool)
    ensures exists venue: Venue, slot: u64, accounts: seq<AccountMeta>, data: seq<byte>, ledger: Ledger ::
              && Process(venue, slot, accounts, data, ledger).Ok?
              && Process(venue, slot, accounts, data, ledger).value.first.programId
                 == if pumpFirst then PUMP_AMM_PROGRAM else METEORA_DLMM_PROGRAM
  {
    KeysDiffer();
    hide Party.CanStartOn, Key, StartLedger, Process, Party.EndsWith, PUMP_AMM_PROGRAM, METEORA_DLMM_PROGRAM;
    var t := Party(pumpFirst, Key(1), Key(2), Key(3));
    var ledger := StartLedger(Key(1), Key(2), Key(3), EMPTY_ACCOUNT, 0);
    StartLedgerIsStartable(Key(1), Key(2), Key(3), EMPTY_ACCOUNT, 0);
    NoLossIsAllowed();
    var venue, data := EveryAllowedOutcomeHappens(t, ledger, 0, 0, 0);
  }
}
