/**
 The builder takes the user, quote and intermediate keys as given (scripts/lib/atomic-executor.mjs). When
 two of them coincide, the merged table no longer has the three where the program looks for them. This
 module proves what a compiled round trip then means, for every input the builder accepts.
 */
module SharedKeys {
  import opened Wrappers
  import opened Bytes
  import opened Solana
  import opened Codec
  import opened Abi
  import opened Builder
  import opened Executor
  import opened CompileRun
  import opened Outcomes
  import opened PlainTrip

  /** The runtime's rule for programs: a loader owns them, not a token program. */
  predicate ProgramsAreNotTokens(input: BuildInput, ledger: Ledger) {
    && TokenState(Get(ledger, input.first.programId)).Err?
    && TokenState(Get(ledger, input.second.programId)).Err?
  }

  predicate IsProgram(input: BuildInput, key: Pubkey) {
    key == input.first.programId || key == input.second.programId
  }

  lemma AddToFixed(table: seq<AccountMeta>, use: AccountMeta)
    ensures Extends(table, AddTo(table, use))
    ensures Mentions(table, use.key) ==> |AddTo(table, use)| == |table|
    ensures !Mentions(table, use.key) ==> AddTo(table, use) == table + [use]
  {
    AddToExtends(table, use);
    hide Find;
    if Mentions(table, use.key) {
      assert Find(table, use.key) < |table|;
    }
  }

  lemma TwoKeysTwoEntries(a: AccountMeta, b: AccountMeta, c: AccountMeta)
    requires a.key == b.key || a.key == c.key || b.key == c.key
    ensures 1 <= |AddTo(AddTo(AddTo([], a), b), c)| <= 2
  {
    hide AddTo;
    AddToFixed([], a);
    var t1 := AddTo([], a);
    assert t1 == [a] && t1[0].key == a.key;
    AddToFixed(t1, b);
    var t2 := AddTo(t1, b);
    assert t2[0].key == a.key;
    assert b.key != a.key ==> t2 == t1 + [b] && t2[1].key == b.key;
    AddToFixed(t2, c);
  }

  /** Two keys among three leave room: one of the entries 1 and 2 is then a program. */
  lemma ProgramMovesUp(input: BuildInput)
    requires !Distinct(input) && input.first.programId != input.second.programId
    ensures var t := Table(input);
            |t| >= 2 && (IsProgram(input, t[1].key) || (|t| >= 3 && IsProgram(input, t[2].key)))
  {
    var f := Fixed(input);
    hide AddTo, AddAll, Table;
    TwoKeysTwoEntries(f[0], f[1], f[2]);
    var t3 := AddTo(AddTo(AddTo([], f[0]), f[1]), f[2]);
    var t4 := AddTo(t3, f[3]);
    var t5 := AddTo(t4, f[4]);
    AddToFixed(t3, f[3]);
    AddToFixed(t4, f[4]);
    AddAllFive(f[0], f[1], f[2], f[3], f[4]);
    assert f == [f[0], f[1], f[2], f[3], f[4]];
    TableExtendsFixed(input);
    ProgramInFive(input, t3, t4, t5, f[3], f[4]);
  }

  lemma TableExtendsFixed(input: BuildInput)
    ensures Extends(AddAll([], Fixed(input)), Table(input))
  {
    hide AddAll, Fixed;
    var legs := input.first.accounts + input.second.accounts;
    assert Uses(input) == Fixed(input) + legs;
    AddAllConcat([], Fixed(input), legs);
    AddAllExtends(AddAll([], Fixed(input)), legs);
  }

  lemma ProgramInFive(input: BuildInput, t3: seq<AccountMeta>, t4: seq<AccountMeta>, t5: seq<AccountMeta>,
                      first: AccountMeta, second: AccountMeta)
    requires 1 <= |t3| <= 2 && first.key == input.first.programId && second.key == input.second.programId
    requires first.key != second.key
    requires Extends(t3, t4) && Extends(t4, t5)
    requires if Mentions(t3, first.key) then |t4| == |t3| else t4 == t3 + [first]
    requires if Mentions(t4, second.key) then |t5| == |t4| else t5 == t4 + [second]
    ensures |t5| >= 2 && (IsProgram(input, t5[1].key) || (|t5| >= 3 && IsProgram(input, t5[2].key)))
  {
    if Mentions(t3, first.key) {
      if !Mentions(t4, second.key) {
        assert t5[|t4|] == second;
      }
    } else {
      assert t4[|t3|] == first;
    }
  }

  /** Whatever the venues do, a compiled round trip with two equal keys never succeeds. */
  lemma SharedKeysNeverSucceed(venue: Venue, slot: u64, input: BuildInput, accounts: seq<AccountMeta>, ledger: Ledger)
    requires Rejection(input).None? && Carries(accounts, Built(input).accounts)
    requires ProgramsAreNotTokens(input, ledger)
    requires Process(venue, slot, accounts, Built(input).data, ledger).Ok?
    ensures Distinct(input)
  {
    var data := Built(input).data;
    ProcessParts(venue, slot, accounts, data, ledger);
    AdmitsExactly(Parse(data).value, slot, accounts, ledger);
    BuiltFields(input);
    VenuesDiffer();
    assert Built(input).accounts == Table(input);
    hide Process, Parse, Serialize, Admit, Table, BuiltConfig, Rejection, TokenState, ValidateRouteAbis, Built;
    if !Distinct(input) {
      ProgramMovesUp(input);
    }
  }

  /**
   For every input the builder accepts: the compiled round trip succeeds, with these calls and ledgers,
   exactly when user, quote and intermediate differ and the two original instructions do.
   */
  lemma CompiledSucceedsExactly(venue: Venue, slot: u64, input: BuildInput, accounts: seq<AccountMeta>, ledger: Ledger,
                                run: Run)
    requires Rejection(input).None? && Carries(accounts, Built(input).accounts)
    requires ProgramsAreNotTokens(input, ledger)
    ensures Process(venue, slot, accounts, Built(input).data, ledger) == Ok(run)
            <==> Distinct(input) && Direct(venue, slot, input, ledger) == Ok(run)
  {
    hide Process, Direct, Built, Rejection, ProgramsAreNotTokens;
    if Process(venue, slot, accounts, Built(input).data, ledger).Ok? {
      SharedKeysNeverSucceed(venue, slot, input, accounts, ledger);
    }
    if Distinct(input) {
      CompileAndRun(venue, slot, input, accounts, ledger);
    }
  }

  /** With those programs, a success needs no promise about the keys to mean the original calls. */
  lemma BuiltCallsAreOriginal(venue: Venue, slot: u64, input: BuildInput, accounts: seq<AccountMeta>, ledger: Ledger)
    requires Rejection(input).None? && Carries(accounts, Built(input).accounts)
    requires ProgramsAreNotTokens(input, ledger)
    requires Process(venue, slot, accounts, Built(input).data, ledger).Ok?
    ensures input.secondAmountOffset == 8 && |input.second.data| >= 24
    ensures var run := Process(venue, slot, accounts, Built(input).data, ledger).value;
            && run.first == input.first
            && run.second == input.second.(data := Patched(input.second.data, 8, run.moved))
            && run.moved == Amount(run.middle, input.intermediate) > 0
            && Amount(run.final, input.intermediate) == 0
            && Amount(run.final, input.quote) >= Amount(ledger, input.quote) - input.minimumProfit
  {
    hide Process, Built, Rejection, ProgramsAreNotTokens, Amount, Patched;
    SharedKeysNeverSucceed(venue, slot, input, accounts, ledger);
    DistinctCallsAreOriginal(venue, slot, input, accounts, ledger);
  }

  // ---- An input on which the two differ

  /** An input the builder accepts whose two instructions succeed, but whose compiled form does not. */
  lemma DistinctKeysAreNeeded()
    ensures exists venue: Venue, slot: u64, input: BuildInput, accounts: seq<AccountMeta>, ledger: Ledger ::
              && Rejection(input).None? && Carries(accounts, Built(input).accounts)
              && ProgramsAreNotTokens(input, ledger)
              && Direct(venue, slot, input, ledger).Ok?
              && Process(venue, slot, accounts, Built(input).data, ledger).Err?
  {
    hide Key, Process, Direct, Built, Rejection, ProgramsAreNotTokens, StartLedger, Party.CanStartOn, Completes,
      Carries, Amount, PlainInput, Party.Effects, Party.EndsWith, Party.Routes, TwoSwaps,
      PUMP_AMM_PROGRAM, METEORA_DLMM_PROGRAM;
    KeysDiffer();
    var t := Plain(Key(1));
    var one, two := SmallestRoute(t, 1);
    var input, ledger := PlainInput(t, one, two, 0), StartLedger(Key(1), Key(1), Key(3), EMPTY_ACCOUNT, 0);
    StartLedgerIsStartable(Key(1), Key(1), Key(3), EMPTY_ACCOUNT, 0);
    SelfOwnedPrograms(one, two);
    RouteLength(t, one, two);
    var middle, end := SwapsHaveEffects(t, ledger, 0, 0, one, two, 0);
    var venue := TwoSwaps(t, 0, 0);
    var run := PlainRunsDirectly(t, venue, ledger, one, two, 0, middle, end);
    var accounts := Built(input).accounts;
    CarriesItself(accounts);
    if Process(venue, 0, accounts, Built(input).data, ledger).Ok? {
      SharedKeysNeverSucceed(venue, 0, input, accounts, ledger);
    }
  }

  lemma RouteLength(t: Party, one: seq<byte>, two: seq<byte>)
    requires t.Routes(one, two)
    ensures |two| >= 24
  {
  }

  /** User 1 is its own wrapped-SOL account. */
  lemma SelfOwnedPrograms(one: seq<byte>, two: seq<byte>)
    ensures var input := PlainInput(Plain(Key(1)), one, two, 0);
            && ProgramsAreNotTokens(input, StartLedger(Key(1), Key(1), Key(3), EMPTY_ACCOUNT, 0))
            && !Distinct(input)
  {
    hide TokenState, StartLedger, Get, Key, PUMP_AMM_PROGRAM, METEORA_DLMM_PROGRAM;
    StartLedgerPrograms();
  }

  lemma StartLedgerPrograms()
    ensures var ledger := StartLedger(Key(1), Key(1), Key(3), EMPTY_ACCOUNT, 0);
            TokenState(Get(ledger, PUMP_AMM_PROGRAM)).Err? && TokenState(Get(ledger, METEORA_DLMM_PROGRAM)).Err?
  {
    KeysDiffer();
    VenuesDiffer();
    assert TOKEN_PROGRAM[0] == 6 && TOKEN_2022_PROGRAM[0] == 6 && SYSTEM_PROGRAM[0] == 0;
    hide Key, TokenAccount, PUMP_AMM_PROGRAM, METEORA_DLMM_PROGRAM, TOKEN_PROGRAM, TOKEN_2022_PROGRAM, SYSTEM_PROGRAM;
  }
}
