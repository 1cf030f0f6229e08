/**
 The compiler and the interpreter together: running what the client built is running the two
 original instructions. `Direct` is the meaning of a round trip without table, indexes or bytes.
 */
module CompileRun {
  import opened Wrappers
  import opened Bytes
  import opened Solana
  import opened Codec
  import opened Abi
  import opened Builder
  import opened Executor

  predicate IsNamed(input: BuildInput, k: Pubkey) {
    || k == input.user || k == input.quote || k == input.intermediate
    || k == input.first.programId || k == input.second.programId
  }

  /** No account of either leg, other than the five named ones, is a token account of the user. */
  predicate NoOtherTokens(input: BuildInput, ledger: Ledger) {
    forall m :: m in input.first.accounts + input.second.accounts && !IsNamed(input, m.key) ==>
                  !IsTokenAccountOf(Get(ledger, m.key), input.user)
  }

  /** The checks of a round trip, on the original instructions. */
  function DirectAdmit(slot: u64, input: BuildInput, ledger: Ledger): Result<u64, ExecutorError>
    requires input.secondAmountOffset >= 0
  {
    var first, second := Get(ledger, input.first.programId), Get(ledger, input.second.programId);
    :- Need(first.executable && second.executable, InvalidProgramPair);
    :- ValidateRouteAbis(input.first.programId, input.first.data, input.second.programId, input.second.data,
                         input.secondAmountOffset);
    var quoteStart :- StartingQuote(ledger, input.user, input.quote, input.intermediate);
    :- Need(NoOtherTokens(input, ledger), UnexpectedUserTokenAccount);
    :- Need(slot <= input.validUntilSlot, Expired);
    Ok(quoteStart)
  }

  function Direct(venue: Venue, slot: u64, input: BuildInput, ledger: Ledger): Result<Run, ExecutorError>
    requires Rejection(input).None?
  {
    var quoteStart :- DirectAdmit(slot, input, ledger);
    RunLegs(venue, ledger, input.quote, input.intermediate, quoteStart, input.minimumProfit,
            Ok(input.first), Ok(input.second), input.secondAmountOffset)
  }

  /** The accounts the runtime passes: the table's keys in order, with at least the table's rights. */
  predicate Carries(accounts: seq<AccountMeta>, table: seq<AccountMeta>) {
    && |accounts| == |table|
    && forall i :: 0 <= i < |table| ==>
         && accounts[i].key == table[i].key
         && (table[i].isSigner ==> accounts[i].isSigner)
         && (table[i].isWritable ==> accounts[i].isWritable)
  }

  predicate Distinct(input: BuildInput) {
    input.user != input.quote && input.user != input.intermediate && input.quote != input.intermediate
  }

  /** The bytes parse back to what was compiled. */
  lemma BuiltParses(input: BuildInput)
    requires Rejection(input).None?
    ensures Parse(Built(input).data) == Ok(BuiltConfig(input))
  {
    hide Rejection, BuiltConfig, Serialize, Parse;
    ParseOfSerialize(BuiltConfig(input));
  }

  /** The table grants every right an account of either leg asks for. */
  lemma TableGrants(input: BuildInput, meta: AccountMeta)
    requires meta in input.first.accounts + input.second.accounts
    ensures var t := Table(input);
            var i := Find(t, meta.key);
            i < |t| && (meta.isSigner ==> t[i].isSigner) && (meta.isWritable ==> t[i].isWritable)
  {
    hide Find, AddTo, AddAll;
    var uses, legs := Uses(input), input.first.accounts + input.second.accounts;
    MergeIsExact(uses);
    AddAllExtends([], uses);
    var j :| 0 <= j < |legs| && legs[j] == meta;
    assert uses == Fixed(input) + legs;
    assert uses[5 + j] == meta;
    assert GrantsSign(uses, meta.key) <== meta.isSigner;
    assert GrantsWrite(uses, meta.key) <== meta.isWritable;
  }

  predicate Grants(table: seq<AccountMeta>, metas: seq<AccountMeta>) {
    forall m :: m in metas ==>
                  var i := Find(table, m.key);
                  i < |table| && (m.isSigner ==> table[i].isSigner) && (m.isWritable ==> table[i].isWritable)
  }

  /** References resolve, through any accounts carrying the table, to the list they came from. */
  lemma {:induction false} RefsResolve(accounts: seq<AccountMeta>, table: seq<AccountMeta>, metas: seq<AccountMeta>)
    requires Carries(accounts, table) && Grants(table, metas) && Covers(table, metas)
    ensures ResolveRefs(accounts, RefsOf(table, metas)) == Ok(metas)
    decreases |metas|
  {
    hide Find;
    if metas != [] {
      var init, last := metas[..|metas| - 1], metas[|metas| - 1];
      assert metas == init + [last];
      RefsSnoc(table, init, last);
      assert RefsOf(table, metas)[..|init|] == RefsOf(table, init);
      RefsResolve(accounts, table, init);
      assert last in metas;
    }
  }

  lemma ProgramPositions(input: BuildInput)
    requires Rejection(input).None?
    ensures var t, c := Table(input), BuiltConfig(input);
            && c.firstProgramIndex < |t| && t[c.firstProgramIndex].key == input.first.programId
            && c.secondProgramIndex < |t| && t[c.secondProgramIndex].key == input.second.programId
  {
    hide Find, AddTo, AddAll, IsDexPair;
    TableCovers(input);
    assert Fixed(input)[3].key == input.first.programId && Fixed(input)[4].key == input.second.programId;
  }

  /** Rebuilding from table and references gives back both instructions: program, accounts, rights and data. */
  lemma RebuildsLegs(input: BuildInput, accounts: seq<AccountMeta>)
    requires Rejection(input).None? && Carries(accounts, Table(input))
    ensures var c := BuiltConfig(input);
            && c.firstProgramIndex < |accounts| && c.secondProgramIndex < |accounts|
            && ResolveCall(accounts, accounts[c.firstProgramIndex].key, c.firstRefs, c.firstData) == Ok(input.first)
            && ResolveCall(accounts, accounts[c.secondProgramIndex].key, c.secondRefs, c.secondData) == Ok(input.second)
  {
    hide Find, AddTo, AddAll, IsDexPair;
    var t := Table(input);
    TableCovers(input);
    ProgramPositions(input);
    forall m | m in input.first.accounts + input.second.accounts
      ensures var i := Find(t, m.key);
              i < |t| && (m.isSigner ==> t[i].isSigner) && (m.isWritable ==> t[i].isWritable)
    {
      TableGrants(input, m);
    }
    hide Table, Uses, Fixed;
    assert Grants(t, input.first.accounts) && Grants(t, input.second.accounts);
    RefsResolve(accounts, t, input.first.accounts);
    RefsResolve(accounts, t, input.second.accounts);
  }

  /** Position by position, the scan over the merged table sees exactly the legs' unnamed accounts. */
  lemma ScanIsNoOtherTokens(input: BuildInput, accounts: seq<AccountMeta>, ledger: Ledger)
    requires Rejection(input).None? && Distinct(input) && Carries(accounts, Table(input))
    ensures ScanPasses(BuiltConfig(input), accounts, ledger, input.user) <==> NoOtherTokens(input, ledger)
  {
    hide IsTokenAccountOf, Rejection, AddAll, Fixed;
    var t, c := Table(input), BuiltConfig(input);
    ScannedIsUnnamed(input);
    if ScanPasses(c, accounts, ledger, input.user) {
      forall m | m in input.first.accounts + input.second.accounts && !IsNamed(input, m.key)
        ensures !IsTokenAccountOf(Get(ledger, m.key), input.user)
      {
        TableGrants(input, m);
        var i := Find(t, m.key);
        assert !SkippedByScan(c, i);
      }
    }
    if NoOtherTokens(input, ledger) {
      forall i | 0 <= i < |accounts| && !SkippedByScan(c, i)
        ensures !IsTokenAccountOf(Get(ledger, accounts[i].key), input.user)
      {
        UnnamedIsFromALeg(input, i);
      }
    }
  }

  /** The positions the scan skips hold exactly the five named accounts. */
  lemma ScannedIsUnnamed(input: BuildInput)
    requires Rejection(input).None? && Distinct(input)
    ensures forall i :: 0 <= i < |Table(input)| ==>
                          (SkippedByScan(BuiltConfig(input), i) <==> IsNamed(input, Table(input)[i].key))
  {
    FixedPositions(input);
    MergeIsExact(Uses(input));
    ProgramPositions(input);
    hide Rejection, BuiltConfig, Table, Uses, Mentions, GrantsSign, GrantsWrite;
    var t, c := Table(input), BuiltConfig(input);
    forall i | 0 <= i < |t|
      ensures SkippedByScan(c, i) <==> IsNamed(input, t[i].key)
    {
      assert t[i].key == t[0].key <==> i == 0;
      assert t[i].key == t[1].key <==> i == 1;
      assert t[i].key == t[2].key <==> i == 2;
    }
  }

  lemma UnnamedIsFromALeg(input: BuildInput, i: nat)
    requires i < |Table(input)| && !IsNamed(input, Table(input)[i].key)
    ensures exists m :: m in input.first.accounts + input.second.accounts && m.key == Table(input)[i].key
  {
    hide AddAll;
    var t, uses, legs := Table(input), Uses(input), input.first.accounts + input.second.accounts;
    MergeIsExact(uses);
    assert Mentions(t, t[i].key);
    var j :| 0 <= j < |uses| && uses[j].key == t[i].key;
    assert uses == Fixed(input) + legs;
    assert uses[j] == legs[j - 5];
  }

  lemma BuiltFields(input: BuildInput)
    requires Rejection(input).None?
    ensures IsDexPair(input.first.programId, input.second.programId)
    ensures var c := BuiltConfig(input);
            && c.quoteIndex == 1 && c.intermediateIndex == 2
            && c.secondAmountOffset == input.secondAmountOffset
            && c.minimumProfit == input.minimumProfit && c.validUntilSlot == input.validUntilSlot
            && c.firstData == input.first.data && c.secondData == input.second.data
  {
    hide Find, AddAll, IsDexPair;
  }

  lemma AdmitMatches(c: Config, slot: u64, input: BuildInput, accounts: seq<AccountMeta>, ledger: Ledger)
    requires input.secondAmountOffset >= 0 && |accounts| >= 3 && accounts[0].isSigner
    requires accounts[0].key == input.user && accounts[1].key == input.quote && accounts[2].key == input.intermediate
    requires c.firstProgramIndex < |accounts| && accounts[c.firstProgramIndex].key == input.first.programId
    requires c.secondProgramIndex < |accounts| && accounts[c.secondProgramIndex].key == input.second.programId
    requires IsDexPair(input.first.programId, input.second.programId)
    requires c.quoteIndex == 1 && c.intermediateIndex == 2
    requires c.secondAmountOffset == input.secondAmountOffset && c.validUntilSlot == input.validUntilSlot
    requires c.firstData == input.first.data && c.secondData == input.second.data
    requires ScanPasses(c, accounts, ledger, input.user) <==> NoOtherTokens(input, ledger)
    ensures Admit(c, slot, accounts, ledger) == DirectAdmit(slot, input, ledger)
  {
    hide IsDexPair, ValidateRouteAbis, StartingQuote, ScanPasses, NoOtherTokens, Get;
  }

  lemma AdmitIsDirect(slot: u64, input: BuildInput, accounts: seq<AccountMeta>, ledger: Ledger)
    requires Rejection(input).None? && Distinct(input) && Carries(accounts, Table(input))
    ensures Admit(BuiltConfig(input), slot, accounts, ledger) == DirectAdmit(slot, input, ledger)
    ensures |accounts| >= 3 && accounts[1].key == input.quote && accounts[2].key == input.intermediate
  {
    FixedPositions(input);
    TableBeginsWithUser(input);
    ProgramPositions(input);
    BuiltFields(input);
    ScanIsNoOtherTokens(input, accounts, ledger);
    hide IsDexPair, ScanPasses, NoOtherTokens, Table, BuiltConfig, Rejection, Admit, DirectAdmit;
    AdmitMatches(BuiltConfig(input), slot, input, accounts, ledger);
  }

  /**
   Compilation preserves meaning. For every venue, slot and ledger, the program run on the built bytes
   and merged accounts does exactly what the two original instructions mean: the same calls, the same
   ledgers, the same amount moved, or the same error.
   */
  lemma CompileAndRun(venue: Venue, slot: u64, input: BuildInput, accounts: seq<AccountMeta>, ledger: Ledger)
    requires Rejection(input).None? && Distinct(input) && Carries(accounts, Built(input).accounts)
    ensures Process(venue, slot, accounts, Built(input).data, ledger) == Direct(venue, slot, input, ledger)
  {
    BuiltParses(input);
    AdmitIsDirect(slot, input, accounts, ledger);
    RebuildsLegs(input, accounts);
    BuiltFields(input);
    hide Parse, Serialize, Admit, DirectAdmit, RunLegs, ResolveCall, Table, BuiltConfig, Rejection;
  }

  /** Read forwards: a built round trip that succeeds called the venue with the first instruction as it
      was, and with the second as it was but for its eight amount bytes. */
  lemma DistinctCallsAreOriginal(venue: Venue, slot: u64, input: BuildInput, accounts: seq<AccountMeta>, ledger: Ledger)
    requires Rejection(input).None? && Distinct(input) && Carries(accounts, Built(input).accounts)
    requires Process(venue, slot, accounts, Built(input).data, ledger).Ok?
    ensures input.secondAmountOffset == 8 && |input.second.data| >= 24
    ensures var run := Process(venue, slot, accounts, Built(input).data, ledger).value;
            && run.first == input.first
            && run.second == input.second.(data := Patched(input.second.data, 8, run.moved))
            && run.moved == Amount(run.middle, input.intermediate) > 0
            && Amount(run.final, input.intermediate) == 0
            && Amount(run.final, input.quote) >= Amount(ledger, input.quote) - input.minimumProfit
  {
    CompileAndRun(venue, slot, input, accounts, ledger);
    AdmitIsDirect(slot, input, accounts, ledger);
    SuccessfulRoundTrip(venue, slot, accounts, Built(input).data, ledger);
    BuiltParses(input);
    hide Process, Parse, Serialize, ResolveRefs, Table, Covers, RefsOf, IsDexPair, ValidateMeteora, ValidatePump,
      IsSwap, TokenState, NoOtherTokens, Invoke, Patched, StartingQuote, Admit, Amount, BuiltConfig, Rejection;
    var start := DirectAdmit(slot, input, ledger).value;
    RunLegsParts(venue, ledger, input.quote, input.intermediate, start, input.minimumProfit,
                 Ok(input.first), Ok(input.second), input.secondAmountOffset);
  }
}
