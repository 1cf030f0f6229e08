/**
 The two venue ABIs, as the on-chain executor checks them (programs/atomic-executor/src/lib.rs)
 and as the client pins its templates (scripts/lib/direct-venues.mjs).
 */
module Abi {
  import opened Wrappers
  import opened Bytes
  import opened Solana
  import opened Codec

  const PUMP_AMM_PROGRAM: Pubkey := [
    12, 20, 222, 252, 130, 94, 198, 118, 148, 37, 8, 24, 187, 101, 64, 101,
    244, 41, 141, 49, 86, 213, 113, 180, 212, 248, 9, 12, 24, 233, 168, 99]
  const METEORA_DLMM_PROGRAM: Pubkey := [
    4, 233, 225, 47, 188, 132, 232, 38, 201, 50, 204, 233, 226, 100, 12, 206,
    21, 89, 12, 28, 98, 115, 176, 146, 87, 8, 186, 59, 133, 32, 176, 188]
  const PUMP_BUY: seq<byte> := [102, 6, 61, 18, 1, 218, 235, 234]
  const PUMP_SELL: seq<byte> := [51, 230, 133, 164, 1, 127, 131, 173]
  const METEORA_SWAP2: seq<byte> := [65, 75, 63, 76, 235, 91, 91, 136]

  function ValidatePump(data: seq<byte>, discriminator: seq<byte>, dynamic: bool): Outcome<ExecutorError> {
    if (|data| != 24 && |data| != 25) || data[..8] != discriminator then Fail(InvalidInstruction)
    else
      var amount, limit := U64At(data, 8), U64At(data, 16);
      if (dynamic && (amount != 1 || limit != 1)) || (!dynamic && (amount == 0 || limit == 0))
      then Fail(InvalidInstruction)
      else Pass
  }

  /** Bytes 24..32 hold a two-entry vector of (type, length) pairs with both lengths zero. */
  predicate NoHookAccounts(data: seq<byte>)
    requires |data| == 32
  {
    U32At(data, 24) == 2 && data[29] == 0 && data[31] == 0
  }

  function ValidateMeteora(data: seq<byte>, dynamic: bool): Outcome<ExecutorError> {
    if |data| != 32 || data[..8] != METEORA_SWAP2 || U64At(data, 16) != 0 then Fail(InvalidInstruction)
    else if !NoHookAccounts(data) then Fail(InvalidInstruction)
    else
      var amount := U64At(data, 8);
      if (dynamic && amount != 1) || (!dynamic && amount == 0) then Fail(InvalidInstruction) else Pass
  }

  /** A Pump instruction written out: discriminator, amount, limit and at most one more byte. */
  predicate PumpLayout(data: seq<byte>, discriminator: seq<byte>, amount: u64, limit: u64, tail: seq<byte>) {
    data == discriminator + ToLe(amount, 8) + ToLe(limit, 8) + tail && |tail| <= 1
  }

  lemma PumpLayoutFields(data: seq<byte>, discriminator: seq<byte>, amount: u64, limit: u64, tail: seq<byte>)
    requires |discriminator| == 8 && PumpLayout(data, discriminator, amount, limit, tail)
    ensures |data| == 24 + |tail| && data[..8] == discriminator && U64At(data, 8) == amount && U64At(data, 16) == limit
  {
    hide ToLe, FromLe;
    assert data[8..16] == ToLe(amount, 8) && data[16..24] == ToLe(limit, 8);
    U64AtToLe(data, 8, amount);
    U64AtToLe(data, 16, limit);
  }

  lemma PumpLayoutOfFields(data: seq<byte>, discriminator: seq<byte>)
    requires 24 <= |data| <= 25 && |discriminator| == 8 && data[..8] == discriminator
    ensures PumpLayout(data, discriminator, U64At(data, 8), U64At(data, 16), data[24..])
  {
    hide ToLe, FromLe;
    assert data == data[..8] + data[8..16] + data[16..24] + data[24..];
  }

  /** The Pump instructions accepted are exactly those laid out so, with the amounts each mode asks for. */
  lemma PumpAcceptsExactly(data: seq<byte>, discriminator: seq<byte>, dynamic: bool)
    requires |discriminator| == 8
    ensures ValidatePump(data, discriminator, dynamic).Pass? <==>
            exists amount: u64, limit: u64, tail: seq<byte> ::
              && PumpLayout(data, discriminator, amount, limit, tail)
              && if dynamic then amount == 1 && limit == 1 else amount > 0 && limit > 0
  {
    hide ToLe, FromLe, U64At, PumpLayout;
    if ValidatePump(data, discriminator, dynamic).Pass? {
      PumpLayoutOfFields(data, discriminator);
    }
    forall amount: u64, limit: u64, tail: seq<byte> | PumpLayout(data, discriminator, amount, limit, tail)
      ensures 24 <= |data| <= 25 && data[..8] == discriminator
      ensures U64At(data, 8) == amount && U64At(data, 16) == limit
    {
      hide *;
      PumpLayoutFields(data, discriminator, amount, limit, tail);
      PumpLayoutLength(data, discriminator, amount, limit, tail);
    }
  }

  lemma PumpLayoutLength(data: seq<byte>, discriminator: seq<byte>, amount: u64, limit: u64, tail: seq<byte>)
    requires |discriminator| == 8 && PumpLayout(data, discriminator, amount, limit, tail)
    ensures 24 <= |data| <= 25
  {
  }

  /** A Meteora instruction written out: amount, no minimum output, and two empty hook slices of some types. */
  predicate MeteoraLayout(data: seq<byte>, amount: u64, x: byte, y: byte) {
    data == METEORA_SWAP2 + ToLe(amount, 8) + ToLe(0, 8) + ToLe(2, 4) + [x, 0, y, 0]
  }

  lemma MeteoraLayoutFields(data: seq<byte>, amount: u64, x: byte, y: byte)
    requires MeteoraLayout(data, amount, x, y)
    ensures |data| == 32 && data[..8] == METEORA_SWAP2 && U64At(data, 8) == amount && U64At(data, 16) == 0
    ensures NoHookAccounts(data)
  {
    hide ToLe, FromLe, METEORA_SWAP2;
    assert |METEORA_SWAP2| == 8 by { MeteoraDiscriminatorLength(); }
    assert data[8..16] == ToLe(amount, 8);
    assert data[16..24] == ToLe(0, 8);
    assert data[24..28] == ToLe(2, 4);
    U64AtToLe(data, 8, amount);
    U64AtToLe(data, 16, 0);
    U32AtToLe(data, 24, 2);
  }

  lemma MeteoraDiscriminatorLength()
    ensures |METEORA_SWAP2| == 8
  {
  }

  lemma MeteoraLayoutOfFields(data: seq<byte>)
    requires |data| == 32 && data[..8] == METEORA_SWAP2 && U64At(data, 16) == 0 && NoHookAccounts(data)
    ensures MeteoraLayout(data, U64At(data, 8), data[28], data[30])
  {
    hide ToLe, FromLe, METEORA_SWAP2;
    assert data[28..] == [data[28], 0, data[30], 0];
    assert data == data[..8] + data[8..16] + data[16..24] + data[24..28] + data[28..];
  }

  /** The Meteora instructions accepted are exactly those laid out so, with the amount each mode asks for. */
  lemma MeteoraAcceptsExactly(data: seq<byte>, dynamic: bool)
    ensures ValidateMeteora(data, dynamic).Pass? <==>
            exists amount: u64, x: byte, y: byte ::
              MeteoraLayout(data, amount, x, y) && if dynamic then amount == 1 else amount > 0
  {
    hide U64At, METEORA_SWAP2, MeteoraLayout, NoHookAccounts;
    if ValidateMeteora(data, dynamic).Pass? {
      MeteoraLayoutOfFields(data);
    }
    forall amount: u64, x: byte, y: byte | MeteoraLayout(data, amount, x, y)
      ensures |data| == 32 && data[..8] == METEORA_SWAP2 && U64At(data, 8) == amount && U64At(data, 16) == 0
      ensures NoHookAccounts(data)
    {
      MeteoraLayoutFields(data, amount, x, y);
    }
  }

  predicate IsDexPair(first: Pubkey, second: Pubkey) {
    || (first == PUMP_AMM_PROGRAM && second == METEORA_DLMM_PROGRAM)
    || (first == METEORA_DLMM_PROGRAM && second == PUMP_AMM_PROGRAM)
  }

  function ValidateRouteAbis(
      firstProgram: Pubkey, firstData: seq<byte>, secondProgram: Pubkey, secondData: seq<byte>, offset: nat)
    : Outcome<ExecutorError>
  {
    if offset != 8 then Fail(InvalidAmountOffset)
    else if firstProgram == PUMP_AMM_PROGRAM && secondProgram == METEORA_DLMM_PROGRAM then
      var first := ValidatePump(firstData, PUMP_BUY, false);
      if first.Fail? then first else ValidateMeteora(secondData, true)
    else if firstProgram == METEORA_DLMM_PROGRAM && secondProgram == PUMP_AMM_PROGRAM then
      var first := ValidateMeteora(firstData, false);
      if first.Fail? then first else ValidatePump(secondData, PUMP_SELL, true)
    else Fail(InvalidProgramPair)
  }

  // What each leg of a route must be, written out

  ghost predicate IsPumpBuy(data: seq<byte>) {
    exists amount: u64, limit: u64, tail: seq<byte> ::
      PumpLayout(data, [102, 6, 61, 18, 1, 218, 235, 234], amount, limit, tail) && amount > 0 && limit > 0
  }

  ghost predicate IsPumpSellTemplate(data: seq<byte>) {
    exists tail: seq<byte> :: PumpLayout(data, [51, 230, 133, 164, 1, 127, 131, 173], 1, 1, tail)
  }

  ghost predicate IsMeteoraSwap(data: seq<byte>) {
    exists amount: u64, x: byte, y: byte :: MeteoraLayout(data, amount, x, y) && amount > 0
  }

  ghost predicate IsMeteoraTemplate(data: seq<byte>) {
    exists x: byte, y: byte :: MeteoraLayout(data, 1, x, y)
  }

  /** A Pump buy and then a Meteora template, or a Meteora swap and then a Pump sell template. */
  ghost predicate IsRoute(first: Pubkey, firstData: seq<byte>, second: Pubkey, secondData: seq<byte>, offset: nat) {
    offset == 8 &&
    if first == PUMP_AMM_PROGRAM && second == METEORA_DLMM_PROGRAM then
      IsPumpBuy(firstData) && IsMeteoraTemplate(secondData)
    else if first == METEORA_DLMM_PROGRAM && second == PUMP_AMM_PROGRAM then
      IsMeteoraSwap(firstData) && IsPumpSellTemplate(secondData)
    else false
  }

  lemma LegsAreExactly(data: seq<byte>)
    ensures ValidatePump(data, PUMP_BUY, false).Pass? <==> IsPumpBuy(data)
    ensures ValidatePump(data, PUMP_SELL, true).Pass? <==> IsPumpSellTemplate(data)
    ensures ValidateMeteora(data, false).Pass? <==> IsMeteoraSwap(data)
    ensures ValidateMeteora(data, true).Pass? <==> IsMeteoraTemplate(data)
  {
    hide PumpLayout, MeteoraLayout, ValidatePump, ValidateMeteora;
    PumpAcceptsExactly(data, PUMP_BUY, false);
    PumpAcceptsExactly(data, PUMP_SELL, true);
    MeteoraAcceptsExactly(data, false);
    MeteoraAcceptsExactly(data, true);
  }

  /** The routes accepted are exactly those, in both directions; each refusal has its own error. */
  lemma RoutePassesExactly(first: Pubkey, firstData: seq<byte>, second: Pubkey, secondData: seq<byte>, offset: nat)
    ensures var r := ValidateRouteAbis(first, firstData, second, secondData, offset);
            && (r.Pass? <==> IsRoute(first, firstData, second, secondData, offset))
            && (r.Fail? ==>
                  r.error == if offset != 8 then InvalidAmountOffset
                             else if IsDexPair(first, second) then InvalidInstruction
                             else InvalidProgramPair)
  {
    hide IsPumpBuy, IsPumpSellTemplate, IsMeteoraSwap, IsMeteoraTemplate, PUMP_AMM_PROGRAM, METEORA_DLMM_PROGRAM;
    VenuesDiffer();
    LegsAreExactly(firstData);
    LegsAreExactly(secondData);
    VenueErrors(firstData);
    VenueErrors(secondData);
    hide ValidatePump, ValidateMeteora;
  }

  lemma VenueErrors(data: seq<byte>)
    ensures forall d: seq<byte>, b: bool :: ValidatePump(data, d, b).Fail? ==>
                                              ValidatePump(data, d, b).error == InvalidInstruction
    ensures forall b: bool :: ValidateMeteora(data, b).Fail? ==> ValidateMeteora(data, b).error == InvalidInstruction
  {
    hide U64At;
  }

  /** A complete instruction of either venue with a positive amount: what a leg may send. */
  predicate IsSwap(program: Pubkey, data: seq<byte>) {
    || (program == PUMP_AMM_PROGRAM
        && (ValidatePump(data, PUMP_BUY, false).Pass? || ValidatePump(data, PUMP_SELL, false).Pass?))
    || (program == METEORA_DLMM_PROGRAM && ValidateMeteora(data, false).Pass?)
  }

  lemma VenuesDiffer()
    ensures PUMP_AMM_PROGRAM != METEORA_DLMM_PROGRAM
  {
    assert PUMP_AMM_PROGRAM[0] != METEORA_DLMM_PROGRAM[0];
  }

  /** Patching the amount touches neither the discriminator nor any field after it. */
  lemma PatchKeepsFields(data: seq<byte>, value: u64)
    requires |data| >= 24
    ensures var p := Patched(data, 8, value);
            p[..8] == data[..8] && p[16..] == data[16..] && U64At(p, 8) == value && U64At(p, 16) == U64At(data, 16)
  {
    var p := Patched(data, 8, value);
    assert p[..8] == data[..8];
    assert p[16..] == data[16..];
    assert p[16..24] == data[16..24];
  }

  lemma PatchKeepsHooks(data: seq<byte>, value: u64)
    requires |data| == 32
    ensures NoHookAccounts(Patched(data, 8, value)) <==> NoHookAccounts(data)
  {
    assert Patched(data, 8, value)[24..28] == data[24..28];
  }

  /** A Pump template patched with any positive amount is a complete Pump instruction. */
  lemma PatchedPumpIsSwap(template: seq<byte>, discriminator: seq<byte>, value: u64)
    requires ValidatePump(template, discriminator, true).Pass?
    ensures ValidatePump(Patched(template, 8, value), discriminator, false).Pass? <==> value > 0
  {
    hide ToLe, FromLe;
    PatchKeepsFields(template, value);
  }

  /** The complete Meteora instructions are exactly the templates patched with a positive amount. */
  lemma MeteoraSwapsArePatchedTemplates(data: seq<byte>)
    ensures ValidateMeteora(data, false).Pass? <==>
            exists template, value: u64 ::
              ValidateMeteora(template, true).Pass? && value > 0 && data == Patched(template, 8, value)
  {
    hide ToLe, FromLe;
    if ValidateMeteora(data, false).Pass? {
      var template, value := Patched(data, 8, 1), U64At(data, 8);
      PatchKeepsFields(data, 1);
      PatchKeepsHooks(data, 1);
      assert ToLe(value, 8) == data[8..16];
      assert Patched(template, 8, value) == data;
    }
    forall template, value: u64 |
      ValidateMeteora(template, true).Pass? && value > 0 && data == Patched(template, 8, value)
      ensures ValidateMeteora(data, false).Pass?
    {
      PatchKeepsFields(template, value);
      PatchKeepsHooks(template, value);
    }
  }

  /** Any accepted route, its second leg patched with a positive amount, sends two complete swaps. */
  lemma RouteSendsSwaps(firstProgram: Pubkey, firstData: seq<byte>, secondProgram: Pubkey, secondData: seq<byte>,
                        offset: nat, value: u64)
    requires ValidateRouteAbis(firstProgram, firstData, secondProgram, secondData, offset).Pass?
    requires value > 0
    ensures offset == 8 && |secondData| >= 24 && IsDexPair(firstProgram, secondProgram)
    ensures IsSwap(firstProgram, firstData)
    ensures IsSwap(secondProgram, Patched(secondData, 8, value))
  {
    hide ToLe, FromLe;
    VenuesDiffer();
    if secondProgram == METEORA_DLMM_PROGRAM {
      MeteoraSwapsArePatchedTemplates(Patched(secondData, 8, value));
    } else {
      PatchedPumpIsSwap(secondData, PUMP_SELL, value);
    }
  }

  // ---- The client's side: scripts/lib/direct-venues.mjs

  datatype TemplateError =
    | UnsupportedVenue | InvalidLength | WrongDiscriminator | WrongPlaceholder | WrongMinimumOutput

  function DynamicAmountOffset(venue: string, data: seq<byte>): Result<nat, TemplateError> {
    if venue != "Pump" && venue != "Meteora" then Err(UnsupportedVenue)
    else
      var pump := venue == "Pump";
      var discriminator := if pump then PUMP_SELL else METEORA_SWAP2;
      var length := if pump then 24 else 32;
      var minimumOutput := if pump then 1 else 0;
      if |data| != length then Err(InvalidLength)
      else if data[..8] != discriminator then Err(WrongDiscriminator)
      else if U64At(data, 8) != 1 then Err(WrongPlaceholder)
      else if U64At(data, 16) != minimumOutput then Err(WrongMinimumOutput)
      else Ok(8)
  }

  /** Which template fails how, on the client's side. */
  lemma TemplatesAreRefusedExactly(venue: string, data: seq<byte>)
    ensures var r := DynamicAmountOffset(venue, data);
            if venue != "Pump" && venue != "Meteora" then r == Err(UnsupportedVenue)
            else if |data| != (if venue == "Pump" then 24 else 32) then r == Err(InvalidLength)
            else if data[..8] != (if venue == "Pump" then [51, 230, 133, 164, 1, 127, 131, 173]
                                  else [65, 75, 63, 76, 235, 91, 91, 136])
            then r == Err(WrongDiscriminator)
            else if U64At(data, 8) != 1 then r == Err(WrongPlaceholder)
            else if U64At(data, 16) != (if venue == "Pump" then 1 else 0) then r == Err(WrongMinimumOutput)
            else r == Ok(8)
  {
    hide U64At;
  }

  /** On Pump templates the two sides differ exactly on the 25-byte form. */
  lemma PumpTemplatesAgree(data: seq<byte>)
    ensures DynamicAmountOffset("Pump", data).Ok? <==>
            ValidatePump(data, PUMP_SELL, true).Pass? && |data| != 25
    ensures exists d :: |d| == 25 && ValidatePump(d, PUMP_SELL, true).Pass?
  {
    hide ToLe, FromLe;
    var d := PUMP_SELL + ToLe(1, 8) + ToLe(1, 8) + [0];
    assert d[8..16] == ToLe(1, 8) && d[16..24] == ToLe(1, 8);
    U64AtToLe(d, 8, 1);
    U64AtToLe(d, 16, 1);
    assert d[..8] == PUMP_SELL;
    assert ValidatePump(d, PUMP_SELL, true).Pass?;
  }

  /** On Meteora templates they differ exactly on the hook bytes 24..32, which the client does not read. */
  lemma MeteoraTemplatesAgree(data: seq<byte>)
    ensures ValidateMeteora(data, true).Pass? <==>
            DynamicAmountOffset("Meteora", data).Ok? && NoHookAccounts(data)
    ensures exists d :: |d| == 32 && DynamicAmountOffset("Meteora", d).Ok? && !NoHookAccounts(d)
  {
    hide ToLe, FromLe;
    var d := METEORA_SWAP2 + ToLe(1, 8) + ToLe(0, 8) + ToLe(2, 4) + [0, 1, 1, 0];
    assert d[8..16] == ToLe(1, 8) && d[16..24] == ToLe(0, 8);
    U64AtToLe(d, 8, 1);
    U64AtToLe(d, 16, 0);
    assert d[..8] == METEORA_SWAP2;
    assert DynamicAmountOffset("Meteora", d).Ok? && d[29] == 1;
  }

  /** Overwrites the amount of a freshly built Meteora instruction with the placeholder one, in place. */
  method PinMeteoraPlaceholder(data: array<byte>) returns (r: Result<nat, TemplateError>)
    modifies data
    ensures data.Length != 32 ==> r == Err(InvalidLength) && data[..] == old(data[..])
    ensures data.Length == 32 ==> data[..] == Patched(old(data[..]), 8, 1)
    ensures r.Ok? <==> data.Length == 32 && old(data[..8]) == METEORA_SWAP2 && U64At(old(data[..]), 16) == 0
    ensures r.Ok? && NoHookAccounts(old(data[..])) ==> r.value == 8 && ValidateMeteora(data[..], true).Pass?
  {
    if data.Length != 32 {
      return Err(InvalidLength);
    }
    hide ToLe, FromLe;
    var patched := PatchU64Le(data, 8, 1);
    ghost var before := old(data[..]);
    PatchKeepsFields(before, 1);
    PatchKeepsHooks(before, 1);
    assert before[..8] == old(data[..8]);
    r := DynamicAmountOffset("Meteora", data[..]);
  }
}
