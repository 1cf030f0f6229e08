/**
 The on-chain program (programs/atomic-executor/src/lib.rs): parse, check, run leg one, move the
 amount it produced into leg two, run leg two, then accept or fail. `Process` says what one run
 does; the class at the end does it step by step on a mutable ledger.
 */
module Executor {
  import opened Wrappers
  import opened Bytes
  import opened Solana
  import opened Codec
  import opened Abi

  const TOKEN_PROGRAM: Pubkey := [
    6, 221, 246, 225, 215, 101, 161, 147, 217, 203, 225, 70, 206, 235, 121, 172,
    28, 180, 133, 237, 95, 91, 55, 145, 58, 140, 245, 133, 126, 255, 0, 169]
  const TOKEN_2022_PROGRAM: Pubkey := [
    6, 221, 246, 225, 238, 117, 143, 222, 24, 66, 93, 188, 228, 108, 205, 218,
    182, 26, 252, 77, 131, 185, 13, 39, 254, 189, 249, 40, 216, 161, 139, 252]
  const NATIVE_MINT: Pubkey := [
    6, 155, 136, 87, 254, 171, 129, 132, 251, 104, 127, 99, 70, 24, 192, 53,
    218, 196, 57, 220, 26, 235, 59, 85, 152, 160, 240, 0, 0, 0, 0, 1]

  // ---- Reading accounts

  datatype TokenView = TokenView(mint: Pubkey, authority: Pubkey, amount: u64)

  predicate IsTokenProgram(owner: Pubkey) {
    owner == TOKEN_PROGRAM || owner == TOKEN_2022_PROGRAM
  }

  function TokenState(account: Account): Result<TokenView, ExecutorError> {
    if !IsTokenProgram(account.owner) || |account.data| < 72 then Err(InvalidTokenAccount)
    else Ok(TokenView(account.data[..32], account.data[32..64], U64At(account.data, 64)))
  }

  /** A token account, of either token program, that `user` controls. */
  predicate IsTokenAccountOf(account: Account, user: Pubkey) {
    TokenState(account).Ok? && TokenState(account).value.authority == user
  }

  /** The two balances a run starts from, once both accounts are known to be the user's. */
  function StartingQuote(ledger: Ledger, user: Pubkey, quote: Pubkey, intermediate: Pubkey)
    : Result<u64, ExecutorError>
  {
    var q :- TokenState(Get(ledger, quote));
    :- Need(q.mint == NATIVE_MINT, InvalidTokenAccount);
    var i :- TokenState(Get(ledger, intermediate));
    :- Need(q.authority == user && i.authority == user, InvalidAuthority);
    :- Need(q.mint != i.mint, InvalidTokenAccount);
    :- Need(i.amount == 0, ExistingInventory);
    Ok(q.amount)
  }

  /** The final guard: `maxLoss` (the wire field `minimum_profit`) bounds the loss, saturating at zero. */
  predicate FloorMet(start: u64, final: u64, maxLoss: u64) {
    final >= if maxLoss <= start then start - maxLoss else 0
  }

  // ---- Rebuilding the calls

  /** The account list a leg's references denote; fails on a bad index or a right the caller lacks. */
  function ResolveRefs(accounts: seq<AccountMeta>, refs: seq<AccountRef>): Result<seq<AccountMeta>, ExecutorError> {
    if refs == [] then Ok([])
    else
      var init :- ResolveRefs(accounts, refs[..|refs| - 1]);
      var ref := refs[|refs| - 1];
      if ref.index >= |accounts| then Err(InvalidInstruction)
      else
        var account := accounts[ref.index];
        if (ref.Signer() && !account.isSigner) || (ref.Writable() && !account.isWritable)
        then Err(PrivilegeEscalation)
        else Ok(init + [AccountMeta(account.key, ref.Signer(), ref.Writable())])
  }

  function ResolveCall(accounts: seq<AccountMeta>, program: Pubkey, refs: seq<AccountRef>, data: seq<byte>)
    : Result<Instruction, ExecutorError>
  {
    var metas :- ResolveRefs(accounts, refs);
    Ok(Instruction(program, metas, data))
  }

  // ---- One run

  /** The two calls a run made, the amount moved between them, and the ledgers in between and after. */
  datatype Run = Run(first: Instruction, middle: Ledger, moved: u64, second: Instruction, final: Ledger)

  function RunLegs(venue: Venue, ledger: Ledger, quote: Pubkey, intermediate: Pubkey, quoteStart: u64, maxLoss: u64,
                   first: Result<Instruction, ExecutorError>, second: Result<Instruction, ExecutorError>, offset: nat)
    : Result<Run, ExecutorError>
    requires second.Ok? ==> offset + 8 <= |second.value.data|
  {
    var one :- first;
    var middle := Invoke(venue, one, ledger);
    :- Need(middle.Some?, CallFailed);
    var produced :- TokenState(Get(middle.value, intermediate));
    :- Need(produced.amount > 0, NoIntermediateOutput);
    var template :- second;
    var two := template.(data := Patched(template.data, offset, produced.amount));
    var final := Invoke(venue, two, middle.value);
    :- Need(final.Some?, CallFailed);
    var left :- TokenState(Get(final.value, intermediate));
    :- Need(left.amount == 0, ResidualInventory);
    var q :- TokenState(Get(final.value, quote));
    :- Need(FloorMet(quoteStart, q.amount, maxLoss), ProfitFloorNotMet);
    Ok(Run(one, middle.value, produced.amount, two, final.value))
  }

  /** The ledger at the point where the two legs stop, by success or by error. */
  function LedgerReached(venue: Venue, ledger: Ledger, intermediate: Pubkey, first: Result<Instruction, ExecutorError>,
                         second: Result<Instruction, ExecutorError>, offset: nat): Ledger
    requires second.Ok? ==> offset + 8 <= |second.value.data|
  {
    if first.Err? || Invoke(venue, first.value, ledger).None? then ledger
    else
      var middle := Invoke(venue, first.value, ledger).value;
      var produced := TokenState(Get(middle, intermediate));
      if produced.Err? || produced.value.amount == 0 || second.Err? then middle
      else
        var patched := second.value.(data := Patched(second.value.data, offset, produced.value.amount));
        var final := Invoke(venue, patched, middle);
        if final.None? then middle else final.value
  }

  predicate SkippedByScan(c: Config, i: nat) {
    i < 3 || i == c.firstProgramIndex || i == c.secondProgramIndex
  }

  /** No account the scan looks at is another token account of the user. */
  predicate ScanPasses(c: Config, accounts: seq<AccountMeta>, ledger: Ledger, user: Pubkey) {
    forall i :: 0 <= i < |accounts| && !SkippedByScan(c, i) ==> !IsTokenAccountOf(Get(ledger, accounts[i].key), user)
  }

  /** Every check made before the first call; the result is the starting quote balance. */
  function Admit(c: Config, slot: u64, accounts: seq<AccountMeta>, ledger: Ledger): Result<u64, ExecutorError> {
    if c.quoteIndex != 1 || c.intermediateIndex != 2 || |accounts| < 3 then Err(InvalidInstruction) else
    var user := accounts[0].key;
    :- Need(accounts[0].isSigner, InvalidAuthority);
    :- Need(c.firstProgramIndex < |accounts| && c.secondProgramIndex < |accounts|, InvalidInstruction);
    var first, second := accounts[c.firstProgramIndex].key, accounts[c.secondProgramIndex].key;
    :- Need(Get(ledger, first).executable && Get(ledger, second).executable, InvalidProgramPair);
    :- Need(IsDexPair(first, second), InvalidProgramPair);
    :- ValidateRouteAbis(first, c.firstData, second, c.secondData, c.secondAmountOffset);
    var quoteStart :- StartingQuote(ledger, user, accounts[1].key, accounts[2].key);
    :- Need(ScanPasses(c, accounts, ledger, user), UnexpectedUserTokenAccount);
    :- Need(slot <= c.validUntilSlot, Expired);
    Ok(quoteStart)
  }

  /** What the program does with `data` and `accounts` on `ledger`, for any venue behaviour. */
  function Process(venue: Venue, slot: u64, accounts: seq<AccountMeta>, data: seq<byte>, ledger: Ledger)
    : Result<Run, ExecutorError>
  {
    var c :- Parse(data);
    assert c.secondAmountOffset + 8 <= |c.secondData| by { SerializeOfParse(data); }
    var quoteStart :- Admit(c, slot, accounts, ledger);
    RunLegs(venue, ledger, accounts[1].key, accounts[2].key, quoteStart, c.minimumProfit,
            ResolveCall(accounts, accounts[c.firstProgramIndex].key, c.firstRefs, c.firstData),
            ResolveCall(accounts, accounts[c.secondProgramIndex].key, c.secondRefs, c.secondData),
            c.secondAmountOffset)
  }

  /** The ledger a run leaves when nothing rolls it back: a refusal before the first call changes nothing. */
  function LeftBehind(venue: Venue, slot: u64, accounts: seq<AccountMeta>, data: seq<byte>, ledger: Ledger): Ledger {
    var parsed := Parse(data);
    if parsed.Err? || Admit(parsed.value, slot, accounts, ledger).Err? then ledger
    else
      var c := parsed.value;
      assert c.secondAmountOffset + 8 <= |c.secondData| by { SerializeOfParse(data); }
      LedgerReached(venue, ledger, accounts[2].key,
                    ResolveCall(accounts, accounts[c.firstProgramIndex].key, c.firstRefs, c.firstData),
                    ResolveCall(accounts, accounts[c.secondProgramIndex].key, c.secondRefs, c.secondData),
                    c.secondAmountOffset)
  }

  /** What is left is what the last call that ran left: the ledger itself, or that after one leg, or after both. */
  lemma LeftBehindIsACall(venue: Venue, slot: u64, accounts: seq<AccountMeta>, data: seq<byte>, ledger: Ledger)
    ensures var left := LeftBehind(venue, slot, accounts, data, ledger);
            || left == ledger
            || exists one: Instruction, middle: Ledger :: Invoke(venue, one, ledger) == Some(middle) &&
                 (left == middle || exists two: Instruction :: Invoke(venue, two, middle) == Some(left))
    ensures (Parse(data).Err? || Admit(Parse(data).value, slot, accounts, ledger).Err?) ==>
              LeftBehind(venue, slot, accounts, data, ledger) == ledger
  {
    hide Invoke, Parse, Admit, ResolveCall, TokenState, Patched, Get;
  }

  // ---- What success means

  function Amount(ledger: Ledger, key: Pubkey): nat {
    var s := TokenState(Get(ledger, key));
    if s.Ok? then s.value.amount else 0
  }

  function Mint(ledger: Ledger, key: Pubkey): Option<Pubkey> {
    var s := TokenState(Get(ledger, key));
    if s.Ok? then Some(s.value.mint) else None
  }

  /** Reference by reference: the account meant, the rights asked for, none of them beyond the caller's. */
  predicate Denotes(accounts: seq<AccountMeta>, refs: seq<AccountRef>, metas: seq<AccountMeta>) {
    |metas| == |refs| &&
    forall i :: 0 <= i < |refs| ==>
                  && refs[i].index < |accounts|
                  && metas[i] == AccountMeta(accounts[refs[i].index].key, refs[i].Signer(), refs[i].Writable())
                  && (metas[i].isSigner ==> accounts[refs[i].index].isSigner)
                  && (metas[i].isWritable ==> accounts[refs[i].index].isWritable)
  }

  /** Resolving succeeds exactly when every reference is in range and within the caller's rights. */
  lemma {:induction false} ResolvesExactly(accounts: seq<AccountMeta>, refs: seq<AccountRef>, metas: seq<AccountMeta>)
    ensures ResolveRefs(accounts, refs) == Ok(metas) <==> Denotes(accounts, refs, metas)
    decreases |refs|
  {
    if refs != [] && metas != [] {
      var init := metas[..|metas| - 1];
      assert metas == init + [metas[|metas| - 1]];
      ResolvesExactly(accounts, refs[..|refs| - 1], init);
    }
  }

  /** No call carries a right its caller was not given. */
  ghost predicate WithinRights(accounts: seq<AccountMeta>, call: Instruction) {
    forall i :: 0 <= i < |call.accounts| ==>
                  && (call.accounts[i].isSigner ==> GrantsSign(accounts, call.accounts[i].key))
                  && (call.accounts[i].isWritable ==> GrantsWrite(accounts, call.accounts[i].key))
  }

  lemma RunLegsParts(venue: Venue, ledger: Ledger, quote: Pubkey, intermediate: Pubkey, quoteStart: u64, maxLoss: u64,
                     first: Result<Instruction, ExecutorError>, second: Result<Instruction, ExecutorError>, offset: nat)
    requires second.Ok? ==> offset + 8 <= |second.value.data|
    requires RunLegs(venue, ledger, quote, intermediate, quoteStart, maxLoss, first, second, offset).Ok?
    ensures var run := RunLegs(venue, ledger, quote, intermediate, quoteStart, maxLoss, first, second, offset).value;
            && first == Ok(run.first)
            && second.Ok? && run.second == second.value.(data := Patched(second.value.data, offset, run.moved))
            && Invoke(venue, run.first, ledger) == Some(run.middle)
            && Invoke(venue, run.second, run.middle) == Some(run.final)
            && run.moved == Amount(run.middle, intermediate) > 0
            && Amount(run.final, intermediate) == 0
            && TokenState(Get(run.final, quote)).Ok? && FloorMet(quoteStart, Amount(run.final, quote), maxLoss)
  {
    hide Invoke, TokenState, Patched, FloorMet;
  }

  /** The user's wrapped-SOL account, and an empty account of the user's for another token. */
  predicate FreshPair(ledger: Ledger, user: Pubkey, quote: Pubkey, intermediate: Pubkey) {
    && IsTokenAccountOf(Get(ledger, quote), user) && Mint(ledger, quote) == Some(NATIVE_MINT)
    && IsTokenAccountOf(Get(ledger, intermediate), user) && Mint(ledger, intermediate) != Some(NATIVE_MINT)
    && Amount(ledger, intermediate) == 0
  }

  /** What a caller must bring. */
  ghost predicate Admissible(c: Config, slot: u64, accounts: seq<AccountMeta>, ledger: Ledger) {
    && c.quoteIndex == 1 && c.intermediateIndex == 2 && |accounts| >= 3 && accounts[0].isSigner
    && c.firstProgramIndex < |accounts| && c.secondProgramIndex < |accounts|
    && var user, first, second :=
         accounts[0].key, accounts[c.firstProgramIndex].key, accounts[c.secondProgramIndex].key;
    && Get(ledger, first).executable && Get(ledger, second).executable
    && IsRoute(first, c.firstData, second, c.secondData, c.secondAmountOffset)
    && FreshPair(ledger, user, accounts[1].key, accounts[2].key)
    && ScanPasses(c, accounts, ledger, user)
    && slot <= c.validUntilSlot
  }

  lemma StartsExactly(ledger: Ledger, user: Pubkey, quote: Pubkey, intermediate: Pubkey)
    ensures StartingQuote(ledger, user, quote, intermediate).Ok? <==> FreshPair(ledger, user, quote, intermediate)
    ensures FreshPair(ledger, user, quote, intermediate) ==>
              StartingQuote(ledger, user, quote, intermediate) == Ok(Amount(ledger, quote))
  {
    hide TokenState;
  }

  /** The checks before the first call, taken in the source's order, are together exactly `Admissible`. */
  lemma AdmitsExactly(c: Config, slot: u64, accounts: seq<AccountMeta>, ledger: Ledger)
    ensures Admit(c, slot, accounts, ledger).Ok? <==> Admissible(c, slot, accounts, ledger)
    ensures Admissible(c, slot, accounts, ledger) ==>
              Admit(c, slot, accounts, ledger) == Ok(Amount(ledger, accounts[1].key))
  {
    hide ValidateRouteAbis, StartingQuote, FreshPair, ScanPasses, IsDexPair, Amount;
    if |accounts| >= 3 {
      StartsExactly(ledger, accounts[0].key, accounts[1].key, accounts[2].key);
    }
    if c.firstProgramIndex < |accounts| && c.secondProgramIndex < |accounts| {
      var first, second := accounts[c.firstProgramIndex].key, accounts[c.secondProgramIndex].key;
      RoutePassesExactly(first, c.firstData, second, c.secondData, c.secondAmountOffset);
      if IsRoute(first, c.firstData, second, c.secondData, c.secondAmountOffset) {
        RouteIsDexPair(first, c.firstData, second, c.secondData, c.secondAmountOffset);
      }
    }
  }

  lemma RouteIsDexPair(first: Pubkey, firstData: seq<byte>, second: Pubkey, secondData: seq<byte>, offset: nat)
    requires IsRoute(first, firstData, second, secondData, offset)
    ensures IsDexPair(first, second)
  {
    hide IsPumpBuy, IsPumpSellTemplate, IsMeteoraSwap, IsMeteoraTemplate;
  }

  // ---- The same conditions on the bytes of the accounts

  /** The account, of either token program, has this mint, authority and amount at their places in its data. */
  predicate HoldsTokens(account: Account, mint: Pubkey, authority: Pubkey, amount: u64) {
    && (account.owner == TOKEN_PROGRAM || account.owner == TOKEN_2022_PROGRAM)
    && |account.data| >= 72
    && account.data[..32] == mint && account.data[32..64] == authority && U64At(account.data, 64) == amount
  }

  ghost predicate IsToken(account: Account) {
    exists mint: Pubkey, authority: Pubkey, amount: u64 :: HoldsTokens(account, mint, authority, amount)
  }

  ghost predicate HasAuthority(account: Account, authority: Pubkey) {
    exists mint: Pubkey, amount: u64 :: HoldsTokens(account, mint, authority, amount)
  }

  ghost predicate HasMint(account: Account, mint: Pubkey) {
    exists authority: Pubkey, amount: u64 :: HoldsTokens(account, mint, authority, amount)
  }

  ghost predicate HasAmount(account: Account, amount: u64) {
    exists mint: Pubkey, authority: Pubkey :: HoldsTokens(account, mint, authority, amount)
  }

  /** Token accounts of both programs are read, at these places and no others. */
  lemma TokenStateExactly(account: Account, v: TokenView)
    ensures TokenState(account) == Ok(v) <==> HoldsTokens(account, v.mint, v.authority, v.amount)
    ensures TokenState(account).Err? ==> TokenState(account).error == InvalidTokenAccount && !IsToken(account)
  {
    hide U64At;
  }

  lemma TokenFieldsExactly(account: Account)
    ensures TokenState(account).Ok? <==> IsToken(account)
    ensures TokenState(account).Err? ==> TokenState(account).error == InvalidTokenAccount
    ensures !IsToken(account) ==>
              && (forall m: Pubkey :: !HasMint(account, m)) && (forall a: Pubkey :: !HasAuthority(account, a))
              && forall n: u64 :: !HasAmount(account, n)
    ensures TokenState(account).Ok? ==>
              var v := TokenState(account).value;
              && HoldsTokens(account, v.mint, v.authority, v.amount)
              && (forall m: Pubkey :: HasMint(account, m) <==> m == v.mint)
              && (forall a: Pubkey :: HasAuthority(account, a) <==> a == v.authority)
              && (forall n: u64 :: HasAmount(account, n) <==> n == v.amount)
    ensures forall user: Pubkey :: IsTokenAccountOf(account, user) <==> HasAuthority(account, user)
  {
    hide U64At;
    if TokenState(account).Ok? {
      var v := TokenState(account).value;
      assert HoldsTokens(account, v.mint, v.authority, v.amount);
    }
  }

  /** Why the pair of token accounts is refused, if it is. */
  ghost function PairRefusal(user: Pubkey, quote: Account, intermediate: Account): Option<ExecutorError> {
    if !HasMint(quote, NATIVE_MINT) || !IsToken(intermediate) then Some(InvalidTokenAccount)
    else if !HasAuthority(quote, user) || !HasAuthority(intermediate, user) then Some(InvalidAuthority)
    else if HasMint(intermediate, NATIVE_MINT) then Some(InvalidTokenAccount)
    else if !HasAmount(intermediate, 0) then Some(ExistingInventory)
    else None
  }

  lemma PairIsRefusedExactly(ledger: Ledger, user: Pubkey, quote: Pubkey, intermediate: Pubkey)
    ensures var r := StartingQuote(ledger, user, quote, intermediate);
            match PairRefusal(user, Get(ledger, quote), Get(ledger, intermediate))
            case Some(e) => r == Err(e)
            case None => r.Ok? && HoldsTokens(Get(ledger, quote), NATIVE_MINT, user, r.value)
  {
    hide TokenState, HoldsTokens, IsToken, HasMint, HasAuthority, HasAmount, NATIVE_MINT;
    TokenFieldsExactly(Get(ledger, quote));
    TokenFieldsExactly(Get(ledger, intermediate));
  }

  /** Why a call is refused before the first leg, if it is: the first of these that applies. */
  ghost function Refusal(c: Config, slot: u64, accounts: seq<AccountMeta>, ledger: Ledger): Option<ExecutorError> {
    if c.quoteIndex != 1 || c.intermediateIndex != 2 || |accounts| < 3 then Some(InvalidInstruction)
    else if !accounts[0].isSigner then Some(InvalidAuthority)
    else if c.firstProgramIndex >= |accounts| || c.secondProgramIndex >= |accounts| then Some(InvalidInstruction)
    else
      var user, first, second :=
        accounts[0].key, accounts[c.firstProgramIndex].key, accounts[c.secondProgramIndex].key;
      var pair := PairRefusal(user, Get(ledger, accounts[1].key), Get(ledger, accounts[2].key));
      if !Get(ledger, first).executable || !Get(ledger, second).executable || first == second
      then Some(InvalidProgramPair)
      else if !({first, second} <= {PUMP_AMM_PROGRAM, METEORA_DLMM_PROGRAM}) then Some(InvalidProgramPair)
      else if c.secondAmountOffset != 8 then Some(InvalidAmountOffset)
      else if !IsRoute(first, c.firstData, second, c.secondData, 8) then Some(InvalidInstruction)
      else if pair.Some? then pair
      else if exists i :: 3 <= i < |accounts| && i != c.firstProgramIndex && i != c.secondProgramIndex
                          && HasAuthority(Get(ledger, accounts[i].key), user) then Some(UnexpectedUserTokenAccount)
      else if slot > c.validUntilSlot then Some(Expired)
      else None
  }

  lemma ScansExactly(c: Config, accounts: seq<AccountMeta>, ledger: Ledger, user: Pubkey)
    ensures ScanPasses(c, accounts, ledger, user) <==>
            !exists i :: 3 <= i < |accounts| && i != c.firstProgramIndex && i != c.secondProgramIndex
                         && HasAuthority(Get(ledger, accounts[i].key), user)
  {
    hide IsTokenAccountOf, HasAuthority, Get;
    forall i | 0 <= i < |accounts|
      ensures IsTokenAccountOf(Get(ledger, accounts[i].key), user) <==> HasAuthority(Get(ledger, accounts[i].key), user)
    {
      TokenFieldsExactly(Get(ledger, accounts[i].key));
    }
  }

  lemma PairIsExactly(first: Pubkey, second: Pubkey)
    ensures IsDexPair(first, second) <==> first != second && {first, second} <= {PUMP_AMM_PROGRAM, METEORA_DLMM_PROGRAM}
  {
    VenuesDiffer();
    hide PUMP_AMM_PROGRAM, METEORA_DLMM_PROGRAM;
  }

  /** Each call is admitted, starting from the quote account's amount, or refused for that reason. */
  lemma RefusedExactly(c: Config, slot: u64, accounts: seq<AccountMeta>, ledger: Ledger)
    ensures var r := Admit(c, slot, accounts, ledger);
            match Refusal(c, slot, accounts, ledger)
            case Some(e) => r == Err(e)
            case None =>
              r.Ok? && |accounts| >= 3
              && HoldsTokens(Get(ledger, accounts[1].key), NATIVE_MINT, accounts[0].key, r.value)
  {
    hide ValidateRouteAbis, IsRoute, StartingQuote, PairRefusal, ScanPasses, IsDexPair, HasAuthority, HoldsTokens, Get,
      PUMP_AMM_PROGRAM, METEORA_DLMM_PROGRAM, NATIVE_MINT;
    if |accounts| >= 3 {
      PairIsRefusedExactly(ledger, accounts[0].key, accounts[1].key, accounts[2].key);
      ScansExactly(c, accounts, ledger, accounts[0].key);
      if c.firstProgramIndex < |accounts| && c.secondProgramIndex < |accounts| {
        var first, second := accounts[c.firstProgramIndex].key, accounts[c.secondProgramIndex].key;
        RoutePassesExactly(first, c.firstData, second, c.secondData, c.secondAmountOffset);
        PairIsExactly(first, second);
        if IsRoute(first, c.firstData, second, c.secondData, c.secondAmountOffset) {
          RouteOffset(first, c.firstData, second, c.secondData, c.secondAmountOffset);
        }
      }
    }
  }

  lemma RouteOffset(first: Pubkey, firstData: seq<byte>, second: Pubkey, secondData: seq<byte>, offset: nat)
    requires IsRoute(first, firstData, second, secondData, offset)
    ensures offset == 8
  {
  }

  /** Which reference makes a leg's account list fail, and how. */
  lemma {:induction false} ResolveFailsExactly(accounts: seq<AccountMeta>, refs: seq<AccountRef>)
    ensures ResolveRefs(accounts, refs).Err? ==>
              exists n :: 0 <= n < |refs| && ResolveRefs(accounts, refs[..n]).Ok?
                          && ResolveRefs(accounts, refs).error
                             == (if refs[n].index >= |accounts| then InvalidInstruction else PrivilegeEscalation)
    decreases |refs|
  {
    if refs != [] {
      var init := refs[..|refs| - 1];
      ResolveFailsExactly(accounts, init);
      if ResolveRefs(accounts, init).Err? {
        var n :| 0 <= n < |init| && ResolveRefs(accounts, init[..n]).Ok?
                 && ResolveRefs(accounts, init).error
                    == (if init[n].index >= |accounts| then InvalidInstruction else PrivilegeEscalation);
        assert init[..n] == refs[..n] && init[n] == refs[n];
      }
    }
  }

  /** Why the two legs fail, if they do: the first of these that applies. */
  lemma LegsFailExactly(venue: Venue, ledger: Ledger, quote: Pubkey, intermediate: Pubkey, quoteStart: u64,
                        maxLoss: u64, first: Result<Instruction, ExecutorError>,
                        second: Result<Instruction, ExecutorError>, offset: nat)
    requires second.Ok? ==> offset + 8 <= |second.value.data|
    requires RunLegs(venue, ledger, quote, intermediate, quoteStart, maxLoss, first, second, offset).Err?
    ensures var e := RunLegs(venue, ledger, quote, intermediate, quoteStart, maxLoss, first, second, offset).error;
            if first.Err? then e == first.error
            else if Invoke(venue, first.value, ledger).None? then e == CallFailed
            else
              var middle := Invoke(venue, first.value, ledger).value;
              if !IsToken(Get(middle, intermediate)) then e == InvalidTokenAccount
              else if HasAmount(Get(middle, intermediate), 0) then e == NoIntermediateOutput
              else if second.Err? then e == second.error
              else
                exists moved: u64 :: HasAmount(Get(middle, intermediate), moved) &&
                  var two := second.value.(data := Patched(second.value.data, offset, moved));
                  if Invoke(venue, two, middle).None? then e == CallFailed
                  else
                    var final := Invoke(venue, two, middle).value;
                    if !IsToken(Get(final, intermediate)) then e == InvalidTokenAccount
                    else if !HasAmount(Get(final, intermediate), 0) then e == ResidualInventory
                    else if !IsToken(Get(final, quote)) then e == InvalidTokenAccount
                    else
                      e == ProfitFloorNotMet
                      && forall n: u64 :: HasAmount(Get(final, quote), n) ==> n < quoteStart - maxLoss
  {
    hide Invoke, TokenState, Patched, HoldsTokens, IsToken, HasAmount, HasMint, HasAuthority, Get;
    if first.Ok? && Invoke(venue, first.value, ledger).Some? {
      var middle := Invoke(venue, first.value, ledger).value;
      TokenFieldsExactly(Get(middle, intermediate));
      if TokenState(Get(middle, intermediate)).Ok? && second.Ok? {
        var moved := TokenState(Get(middle, intermediate)).value.amount;
        var two := second.value.(data := Patched(second.value.data, offset, moved));
        if Invoke(venue, two, middle).Some? {
          var final := Invoke(venue, two, middle).value;
          TokenFieldsExactly(Get(final, intermediate));
          TokenFieldsExactly(Get(final, quote));
        }
      }
    }
  }

  lemma ResolvedCall(accounts: seq<AccountMeta>, program: Pubkey, refs: seq<AccountRef>, data: seq<byte>)
    requires ResolveCall(accounts, program, refs, data).Ok?
    ensures var call := ResolveCall(accounts, program, refs, data).value;
            ResolveRefs(accounts, refs) == Ok(call.accounts) && call.programId == program && call.data == data
  {
    hide ResolveRefs;
  }

  lemma AdmittedBounds(c: Config, slot: u64, accounts: seq<AccountMeta>, ledger: Ledger)
    requires Admit(c, slot, accounts, ledger).Ok?
    ensures |accounts| >= 3 && c.firstProgramIndex < |accounts| && c.secondProgramIndex < |accounts|
  {
    AdmitsExactly(c, slot, accounts, ledger);
  }

  /** The pieces of a successful run. */
  lemma ProcessParts(venue: Venue, slot: u64, accounts: seq<AccountMeta>, data: seq<byte>, ledger: Ledger)
    requires Process(venue, slot, accounts, data, ledger).Ok?
    ensures Parse(data).Ok?
    ensures var c, run := Parse(data).value, Process(venue, slot, accounts, data, ledger).value;
            && Admit(c, slot, accounts, ledger).Ok?
            && |accounts| >= 3 && c.firstProgramIndex < |accounts| && c.secondProgramIndex < |accounts|
            && c.secondAmountOffset + 8 <= |c.secondData|
            && ResolveCall(accounts, accounts[c.firstProgramIndex].key, c.firstRefs, c.firstData) == Ok(run.first)
            && run.second.programId == accounts[c.secondProgramIndex].key
            && ResolveRefs(accounts, c.secondRefs) == Ok(run.second.accounts)
            && run.second.data == Patched(c.secondData, c.secondAmountOffset, run.moved)
            && Invoke(venue, run.first, ledger) == Some(run.middle)
            && Invoke(venue, run.second, run.middle) == Some(run.final)
            && run.moved == Amount(run.middle, accounts[2].key) > 0
            && Amount(run.final, accounts[2].key) == 0
            && TokenState(Get(run.final, accounts[1].key)).Ok?
            && FloorMet(Admit(c, slot, accounts, ledger).value, Amount(run.final, accounts[1].key), c.minimumProfit)
  {
    hide Parse, Admit, Admissible, RunLegs, ResolveCall, ResolveRefs, Invoke, TokenState, Patched, FloorMet, Amount,
      Get, Serialize;
    var c := Parse(data).value;
    AdmittedBounds(c, slot, accounts, ledger);
    SerializeOfParse(data);
    var second := ResolveCall(accounts, accounts[c.secondProgramIndex].key, c.secondRefs, c.secondData);
    if second.Ok? {
      ResolvedCall(accounts, accounts[c.secondProgramIndex].key, c.secondRefs, c.secondData);
    }
    RunLegsParts(venue, ledger, accounts[1].key, accounts[2].key, Admit(c, slot, accounts, ledger).value,
                 c.minimumProfit, ResolveCall(accounts, accounts[c.firstProgramIndex].key, c.firstRefs, c.firstData),
                 second, c.secondAmountOffset);
  }

  lemma ResolvedWithinRights(accounts: seq<AccountMeta>, refs: seq<AccountRef>, call: Instruction)
    requires ResolveRefs(accounts, refs) == Ok(call.accounts)
    ensures WithinRights(accounts, call)
  {
    ResolvesExactly(accounts, refs, call.accounts);
  }

  lemma RightsAreASubset(venue: Venue, slot: u64, accounts: seq<AccountMeta>, data: seq<byte>, ledger: Ledger)
    requires Process(venue, slot, accounts, data, ledger).Ok?
    ensures var run := Process(venue, slot, accounts, data, ledger).value;
            WithinRights(accounts, run.first) && WithinRights(accounts, run.second)
  {
    hide Process, Parse, Admit, ResolveRefs, Invoke, Patched, TokenState;
    ProcessParts(venue, slot, accounts, data, ledger);
    var c, run := Parse(data).value, Process(venue, slot, accounts, data, ledger).value;
    ResolvedWithinRights(accounts, c.firstRefs, run.first);
    ResolvedWithinRights(accounts, c.secondRefs, run.second);
  }

  /**
   A successful run was signed by the owner of both token accounts, the quote one wrapped SOL and the
   intermediate one anything else; met its deadline; sent two complete swaps; sized the second by exactly what the
   first produced, changing nothing else of it; ended with no intermediate tokens, as it began; and
   lost at most `minimum_profit` of the quote token.
   */
  lemma SuccessfulRoundTrip(venue: Venue, slot: u64, accounts: seq<AccountMeta>, data: seq<byte>, ledger: Ledger)
    requires Process(venue, slot, accounts, data, ledger).Ok?
    ensures Parse(data).Ok? && |accounts| >= 3
    ensures var c, run := Parse(data).value, Process(venue, slot, accounts, data, ledger).value;
            var quote, intermediate := accounts[1].key, accounts[2].key;
            && accounts[0].isSigner
            && IsTokenAccountOf(Get(ledger, quote), accounts[0].key)
            && IsTokenAccountOf(Get(ledger, intermediate), accounts[0].key)
            && Mint(ledger, quote) == Some(NATIVE_MINT) && Mint(ledger, intermediate) != Some(NATIVE_MINT)
            && slot <= c.validUntilSlot
            && run.first.data == c.firstData && IsSwap(run.first.programId, run.first.data)
            && run.moved == Amount(run.middle, intermediate) > 0
            && |c.secondData| >= 24 && run.second.data == Patched(c.secondData, 8, run.moved)
            && IsSwap(run.second.programId, run.second.data)
            && IsDexPair(run.first.programId, run.second.programId)
            && Amount(ledger, intermediate) == 0 == Amount(run.final, intermediate)
            && Amount(run.final, quote) >= Amount(ledger, quote) - c.minimumProfit
  {
    hide Process, Admit, Parse, ResolveRefs, Patched, Invoke, ValidateRouteAbis, IsSwap, Amount, StartingQuote,
      ScanPasses, IsTokenAccountOf, Mint, PUMP_AMM_PROGRAM, METEORA_DLMM_PROGRAM, NATIVE_MINT;
    ProcessParts(venue, slot, accounts, data, ledger);
    var c, run := Parse(data).value, Process(venue, slot, accounts, data, ledger).value;
    AdmitsExactly(c, slot, accounts, ledger);
    hide IsRoute;
    RoutePassesExactly(run.first.programId, c.firstData, run.second.programId, c.secondData, c.secondAmountOffset);
    RouteSendsSwaps(run.first.programId, c.firstData, run.second.programId, c.secondData, c.secondAmountOffset,
                    run.moved);
  }

  /** What the two legs do, read off the ledgers they pass through. */
  predicate Completes(venue: Venue, c: Config, accounts: seq<AccountMeta>, ledger: Ledger, run: Run)
    requires |accounts| >= 3 && c.firstProgramIndex < |accounts| && c.secondProgramIndex < |accounts|
    requires c.secondAmountOffset + 8 <= |c.secondData|
  {
    var quote, intermediate := accounts[1].key, accounts[2].key;
    && run.first.programId == accounts[c.firstProgramIndex].key
    && Denotes(accounts, c.firstRefs, run.first.accounts)
    && run.first.data == c.firstData
    && Invoke(venue, run.first, ledger) == Some(run.middle)
    && run.moved == Amount(run.middle, intermediate) > 0
    && run.second.programId == accounts[c.secondProgramIndex].key
    && Denotes(accounts, c.secondRefs, run.second.accounts)
    && run.second.data == Patched(c.secondData, c.secondAmountOffset, run.moved)
    && Invoke(venue, run.second, run.middle) == Some(run.final)
    && TokenState(Get(run.final, intermediate)).Ok? && Amount(run.final, intermediate) == 0
    && TokenState(Get(run.final, quote)).Ok?
    && Amount(run.final, quote) >= Amount(ledger, quote) - c.minimumProfit
  }

  /** Success, exactly: the bytes parse, the caller brings what is asked, and the two legs complete. */
  lemma SucceedsExactly(venue: Venue, slot: u64, accounts: seq<AccountMeta>, data: seq<byte>, ledger: Ledger, run: Run)
    ensures Process(venue, slot, accounts, data, ledger) == Ok(run) <==>
            && Parse(data).Ok?
            && var c := Parse(data).value;
            && Admissible(c, slot, accounts, ledger)
            && c.secondAmountOffset + 8 <= |c.secondData|
            && Completes(venue, c, accounts, ledger, run)
  {
    if Parse(data).Ok? {
      var c := Parse(data).value;
      SerializeOfParse(data);
      AdmitsExactly(c, slot, accounts, ledger);
      if Admissible(c, slot, accounts, ledger) {
        ResolvesExactly(accounts, c.firstRefs, run.first.accounts);
        ResolvesExactly(accounts, c.secondRefs, run.second.accounts);
        hide Parse, Serialize, Admit, RunLegs, Completes, Denotes, ResolveRefs;
        CompletesExactly(venue, c, accounts, ledger, run);
      }
    }
  }

  lemma CompletesExactly(venue: Venue, c: Config, accounts: seq<AccountMeta>, ledger: Ledger, run: Run)
    requires |accounts| >= 3 && c.firstProgramIndex < |accounts| && c.secondProgramIndex < |accounts|
    requires c.secondAmountOffset + 8 <= |c.secondData|
    ensures RunLegs(venue, ledger, accounts[1].key, accounts[2].key, Amount(ledger, accounts[1].key), c.minimumProfit,
                    ResolveCall(accounts, accounts[c.firstProgramIndex].key, c.firstRefs, c.firstData),
                    ResolveCall(accounts, accounts[c.secondProgramIndex].key, c.secondRefs, c.secondData),
                    c.secondAmountOffset) == Ok(run)
            <==> Completes(venue, c, accounts, ledger, run)
  {
    ResolvesExactly(accounts, c.firstRefs, run.first.accounts);
    ResolvesExactly(accounts, c.secondRefs, run.second.accounts);
    hide ResolveRefs, Denotes, Invoke, TokenState, Patched;
  }

  /** A run changes only accounts the program was given write access to, and no executable one. */
  lemma ChangesOnlyWritable(venue: Venue, slot: u64, accounts: seq<AccountMeta>, data: seq<byte>, ledger: Ledger,
                            k: Pubkey)
    requires Process(venue, slot, accounts, data, ledger).Ok?
    requires var run := Process(venue, slot, accounts, data, ledger).value;
             Get(run.final, k) != Get(ledger, k)
    ensures GrantsWrite(accounts, k) && !Get(ledger, k).executable
  {
    hide Process, Admit, Parse, ResolveRefs, Invoke, ResolveCall, Patched, TokenState, Amount;
    RightsAreASubset(venue, slot, accounts, data, ledger);
    ProcessParts(venue, slot, accounts, data, ledger);
    var run := Process(venue, slot, accounts, data, ledger).value;
    if Get(run.middle, k) != Get(ledger, k) {
      assert GrantsWrite(run.first.accounts, k);
    } else {
      assert GrantsWrite(run.second.accounts, k);
    }
  }

  /** Past the scan, a non-executable token account of the user is passed in only as one of the first three. */
  lemma ScanExcludes(c: Config, accounts: seq<AccountMeta>, ledger: Ledger, k: Pubkey)
    requires |accounts| >= 3 && c.firstProgramIndex < |accounts| && c.secondProgramIndex < |accounts|
    requires ScanPasses(c, accounts, ledger, accounts[0].key)
    requires Get(ledger, accounts[c.firstProgramIndex].key).executable
    requires Get(ledger, accounts[c.secondProgramIndex].key).executable
    requires IsTokenAccountOf(Get(ledger, k), accounts[0].key)
    requires Mentions(accounts, k) && !Get(ledger, k).executable
    ensures k == accounts[0].key || k == accounts[1].key || k == accounts[2].key
  {
    hide TokenState, Get, IsTokenAccountOf;
    var i :| 0 <= i < |accounts| && accounts[i].key == k;
    assert SkippedByScan(c, i);
  }

  /**
   Of all token accounts the user controls, passed in or not, a successful run changes at most the
   quote and the intermediate account (and the signing account, if that is itself one).
   */
  lemma OtherUserTokensUntouched(venue: Venue, slot: u64, accounts: seq<AccountMeta>, data: seq<byte>, ledger: Ledger,
                                 k: Pubkey)
    requires Process(venue, slot, accounts, data, ledger).Ok?
    requires |accounts| >= 3 && IsTokenAccountOf(Get(ledger, k), accounts[0].key)
    requires k != accounts[0].key && k != accounts[1].key && k != accounts[2].key
    ensures Get(Process(venue, slot, accounts, data, ledger).value.final, k) == Get(ledger, k)
  {
    hide Process, Admit, Parse, ValidateRouteAbis, ResolveRefs, StartingQuote, Invoke, Patched, ScanPasses,
      IsTokenAccountOf, TokenState, Get;
    if Get(Process(venue, slot, accounts, data, ledger).value.final, k) != Get(ledger, k) {
      ChangesOnlyWritable(venue, slot, accounts, data, ledger, k);
      ProcessParts(venue, slot, accounts, data, ledger);
      AdmitsExactly(Parse(data).value, slot, accounts, ledger);
      ScanExcludes(Parse(data).value, accounts, ledger, k);
    }
  }

  // ---- The program on a mutable ledger

  /** The keys of a call, its program included, are all among `infos`. */
  predicate HandsOver(infos: seq<Pubkey>, call: Instruction) {
    call.programId in infos && forall m :: m in call.accounts ==> m.key in infos
  }

  class Bank {
    var ledger: Ledger
    const venue: Venue
    const slot: u64

    constructor (ledger: Ledger, venue: Venue, slot: u64)
      ensures this.ledger == ledger && this.venue == venue && this.slot == slot
    {
      this.ledger, this.venue, this.slot := ledger, venue, slot;
    }

    /** The runtime's side of a call: it fails unless every account it needs was handed over with it. */
    method CrossProgramCall(call: Instruction, infos: seq<Pubkey>) returns (r: Outcome<ExecutorError>)
      modifies this
      ensures var after := if HandsOver(infos, call) then Invoke(venue, call, old(ledger)) else None;
              if after.Some? then r == Pass && ledger == after.value else r == Fail(CallFailed) && ledger == old(ledger)
    {
      if !HandsOver(infos, call) {
        return Fail(CallFailed);
      }
      var after := Invoke(venue, call, ledger);
      if after.None? {
        return Fail(CallFailed);
      }
      ledger := after.value;
      r := Pass;
    }

    /** Rebuilds one leg's account list, hands over the accounts it names, and calls the venue. */
    method InvokeLeg(program: Pubkey, refs: seq<AccountRef>, data: seq<byte>, accounts: seq<AccountMeta>)
      returns (r: Outcome<ExecutorError>)
      modifies this
      ensures match ResolveCall(accounts, program, refs, data)
              case Err(e) => r == Fail(e) && ledger == old(ledger)
              case Ok(call) =>
                var after := Invoke(venue, call, old(ledger));
                && r == (if after.Some? then Pass else Fail(CallFailed))
                && ledger == (if after.Some? then after.value else old(ledger))
    {
      var metas: seq<AccountMeta>, infos: seq<Pubkey> := [], [];
      for n := 0 to |refs|
        invariant ResolveRefs(accounts, refs[..n]) == Ok(metas)
        invariant forall m :: m in metas ==> m.key in infos
      {
        var ref := refs[n];
        assert refs[..n + 1][..n] == refs[..n];
        if ref.index >= |accounts| {
          ResolveErrorPersists(accounts, refs, n + 1);
          return Fail(InvalidInstruction);
        }
        var account := accounts[ref.index];
        if (ref.Signer() && !account.isSigner) || (ref.Writable() && !account.isWritable) {
          ResolveErrorPersists(accounts, refs, n + 1);
          return Fail(PrivilegeEscalation);
        }
        metas := metas + [AccountMeta(account.key, ref.Signer(), ref.Writable())];
        infos := infos + [account.key];
      }
      assert refs[..|refs|] == refs;
      infos := infos + [program];
      r := CrossProgramCall(Instruction(program, metas, data), infos);
    }

    /** The loop over every account after the first three. */
    method Scan(c: Config, accounts: seq<AccountMeta>, user: Pubkey) returns (ok: bool)
      requires |accounts| >= 3
      ensures ok <==> ScanPasses(c, accounts, ledger, user)
    {
      for i := 3 to |accounts|
        invariant forall j :: 0 <= j < i && !SkippedByScan(c, j) ==>
                                !IsTokenAccountOf(Get(ledger, accounts[j].key), user)
      {
        if i == c.firstProgramIndex || i == c.secondProgramIndex {
          continue;
        }
        var account := Get(ledger, accounts[i].key);
        if IsTokenProgram(account.owner) {
          var state := TokenState(account);
          if state.Ok? && state.value.authority == user {
            return false;
          }
        }
      }
      return true;
    }

    /** One run of the program, on a ledger nothing rolls back; see `Execute`. */
    method ProcessInstruction(accounts: seq<AccountMeta>, data: seq<byte>) returns (r: Outcome<ExecutorError>)
      modifies this
      ensures match Process(venue, slot, accounts, data, old(ledger))
              case Ok(run) => r == Pass && ledger == run.final
              case Err(e) => r == Fail(e)
      ensures ledger == LeftBehind(venue, slot, accounts, data, old(ledger))
    {
      hide Parse, ResolveRefs, Invoke, ScanPasses, ValidateRouteAbis, TokenState, StartingQuote, Patched;
      var parsed := Parse(data);
      if parsed.Err? {
        return Fail(parsed.error);
      }
      var c := parsed.value;
      SerializeOfParse(data);
      if c.quoteIndex != 1 || c.intermediateIndex != 2 || |accounts| < 3 {
        return Fail(InvalidInstruction);
      }
      var user, quote, intermediate := accounts[0].key, accounts[1].key, accounts[2].key;
      if !accounts[0].isSigner {
        return Fail(InvalidAuthority);
      }
      if c.firstProgramIndex >= |accounts| || c.secondProgramIndex >= |accounts| {
        return Fail(InvalidInstruction);
      }
      var first, second := accounts[c.firstProgramIndex].key, accounts[c.secondProgramIndex].key;
      if !Get(ledger, first).executable || !Get(ledger, second).executable || !IsDexPair(first, second) {
        return Fail(InvalidProgramPair);
      }
      var abis := ValidateRouteAbis(first, c.firstData, second, c.secondData, c.secondAmountOffset);
      if abis.Fail? {
        return abis;
      }
      var quoteStart := StartingQuote(ledger, user, quote, intermediate);
      if quoteStart.Err? {
        return Fail(quoteStart.error);
      }
      var clean := Scan(c, accounts, user);
      if !clean {
        return Fail(UnexpectedUserTokenAccount);
      }
      if slot > c.validUntilSlot {
        return Fail(Expired);
      }
      r := RunBothLegs(c, accounts, quoteStart.value);
    }

    method RunBothLegs(c: Config, accounts: seq<AccountMeta>, quoteStart: u64) returns (r: Outcome<ExecutorError>)
      requires |accounts| >= 3 && c.firstProgramIndex < |accounts| && c.secondProgramIndex < |accounts|
      requires c.secondAmountOffset + 8 <= |c.secondData|
      modifies this
      ensures match RunLegs(venue, old(ledger), accounts[1].key, accounts[2].key, quoteStart, c.minimumProfit,
                            ResolveCall(accounts, accounts[c.firstProgramIndex].key, c.firstRefs, c.firstData),
                            ResolveCall(accounts, accounts[c.secondProgramIndex].key, c.secondRefs, c.secondData),
                            c.secondAmountOffset)
              case Ok(run) => r == Pass && ledger == run.final
              case Err(e) => r == Fail(e)
      ensures ledger == LedgerReached(
                venue, old(ledger), accounts[2].key,
                ResolveCall(accounts, accounts[c.firstProgramIndex].key, c.firstRefs, c.firstData),
                ResolveCall(accounts, accounts[c.secondProgramIndex].key, c.secondRefs, c.secondData),
                c.secondAmountOffset)
    {
      hide ResolveRefs, Invoke, TokenState, Patched;
      var leg := InvokeLeg(accounts[c.firstProgramIndex].key, c.firstRefs, c.firstData, accounts);
      if leg.Fail? {
        return leg;
      }
      var produced := TokenState(Get(ledger, accounts[2].key));
      if produced.Err? {
        return Fail(produced.error);
      }
      if produced.value.amount == 0 {
        return Fail(NoIntermediateOutput);
      }
      var buffer := new byte[|c.secondData|](i requires 0 <= i < |c.secondData| => c.secondData[i]);
      assert buffer[..] == c.secondData;
      var patched := PatchU64Le(buffer, c.secondAmountOffset, produced.value.amount);
      leg := InvokeLeg(accounts[c.secondProgramIndex].key, c.secondRefs, buffer[..], accounts);
      if leg.Fail? {
        return leg;
      }
      var left := TokenState(Get(ledger, accounts[2].key));
      if left.Err? {
        return Fail(left.error);
      }
      if left.value.amount != 0 {
        return Fail(ResidualInventory);
      }
      var final := TokenState(Get(ledger, accounts[1].key));
      if final.Err? {
        return Fail(final.error);
      }
      return if FloorMet(quoteStart, final.value.amount, c.minimumProfit) then Pass else Fail(ProfitFloorNotMet);
    }

    /** The runtime around a run: any error restores the whole ledger. */
    method Execute(accounts: seq<AccountMeta>, data: seq<byte>) returns (r: Outcome<ExecutorError>)
      modifies this
      ensures r.Pass? <==> Process(venue, slot, accounts, data, old(ledger)).Ok?
      ensures r.Fail? ==> ledger == old(ledger)
      ensures r.Pass? ==> ledger == Process(venue, slot, accounts, data, old(ledger)).value.final
    {
      var before := ledger;
      r := ProcessInstruction(accounts, data);
      if r.Fail? {
        ledger := before;
      }
    }
  }

  lemma {:induction false} ResolveErrorPersists(accounts: seq<AccountMeta>, refs: seq<AccountRef>, n: nat)
    requires n <= |refs| && ResolveRefs(accounts, refs[..n]).Err?
    ensures ResolveRefs(accounts, refs) == ResolveRefs(accounts, refs[..n])
    decreases |refs|
  {
    if n == |refs| {
      assert refs[..n] == refs;
    } else {
      var init := refs[..|refs| - 1];
      assert init[..n] == refs[..n];
      ResolveErrorPersists(accounts, init, n);
    }
  }
}
