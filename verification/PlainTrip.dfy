/**
 The plainest round trip, as an input to the client's builder (scripts/lib/atomic-executor.mjs): the smallest
 instructions both venues accept, each passed the quote, the intermediate and the signing account. Whatever the
 venues then do to those three accounts, if it makes a round trip complete, the two instructions succeed. The
 modules that exhibit runs start from here.
 */
module PlainTrip {
  import opened Wrappers
  import opened Bytes
  import opened Solana
  import opened Codec
  import opened Abi
  import opened Builder
  import opened Executor
  import opened CompileRun
  import opened Outcomes

  function PlainInput(t: Party, one: seq<byte>, two: seq<byte>, maxLoss: u64): BuildInput {
    BuildInput(Key(4), t.user, t.quote, t.intermediate,
               Instruction(t.FirstProgram(), t.Metas(), one), Instruction(t.SecondProgram(), t.Metas(), two),
               8, maxLoss, 0)
  }

  lemma {:induction false} AddAllIsNoLonger(uses: seq<AccountMeta>)
    ensures |AddAll([], uses)| <= |uses|
    decreases |uses|
  {
    if uses != [] {
      AddAllIsNoLonger(uses[..|uses| - 1]);
    }
  }

  lemma PlainIsAccepted(t: Party, one: seq<byte>, two: seq<byte>, maxLoss: u64)
    requires t.Routes(one, two)
    ensures Rejection(PlainInput(t, one, two, maxLoss)).None?
  {
    hide AddAll, Find, Key, IsRoute, PUMP_AMM_PROGRAM, METEORA_DLMM_PROGRAM;
    AddAllIsNoLonger(Uses(PlainInput(t, one, two, maxLoss)));
  }

  lemma PlainIsAlone(t: Party, one: seq<byte>, two: seq<byte>, maxLoss: u64, ledger: Ledger)
    ensures NoOtherTokens(PlainInput(t, one, two, maxLoss), ledger)
  {
    hide Key, IsTokenAccountOf, Get, PUMP_AMM_PROGRAM, METEORA_DLMM_PROGRAM;
  }

  lemma PlainIsAdmitted(t: Party, one: seq<byte>, two: seq<byte>, maxLoss: u64, ledger: Ledger)
    requires t.Routes(one, two) && t.CanStartOn(ledger)
    ensures DirectAdmit(0, PlainInput(t, one, two, maxLoss), ledger) == Ok(Amount(ledger, t.quote))
  {
    hide Key, IsRoute, Amount, Admit, DirectAdmit, NoOtherTokens, Party.CanStartOn, ScanPasses, FreshPair, Get,
      PUMP_AMM_PROGRAM, METEORA_DLMM_PROGRAM;
    var c := t.Configuration(one, two, maxLoss);
    PlainIsAdmissible(t, one, two, maxLoss, ledger);
    AdmitsExactly(c, 0, t.Accounts(), ledger);
    PlainIsAlone(t, one, two, maxLoss, ledger);
    AdmitMatches(c, 0, PlainInput(t, one, two, maxLoss), t.Accounts(), ledger);
  }

  lemma PlainResolves(t: Party, one: seq<byte>, two: seq<byte>)
    ensures ResolveCall(t.Accounts(), t.FirstProgram(), TRIO_REFS, one) == Ok(t.FirstCall(one))
    ensures ResolveCall(t.Accounts(), t.SecondProgram(), TRIO_REFS, two)
            == Ok(Instruction(t.SecondProgram(), t.Metas(), two))
  {
    hide Key, ResolveRefs, Denotes, Party.Metas, Party.Accounts, TRIO_REFS, PUMP_AMM_PROGRAM, METEORA_DLMM_PROGRAM;
    TrioIsDenoted(t);
    ResolvesExactly(t.Accounts(), TRIO_REFS, t.Metas());
  }

  /** The two instructions succeed on every ledger a round trip can start on, given such effects. */
  lemma PlainRunsDirectly(t: Party, venue: Venue, ledger: Ledger, one: seq<byte>, two: seq<byte>, maxLoss: u64,
                          middle: Ledger, end: Ledger) returns (run: Run)
    requires t.Routes(one, two) && t.CanStartOn(ledger) && t.Effects(venue, ledger, one, two, maxLoss, middle, end)
    ensures Rejection(PlainInput(t, one, two, maxLoss)).None?
    ensures Direct(venue, 0, PlainInput(t, one, two, maxLoss), ledger) == Ok(run)
    ensures run.final == end
  {
    hide Key, Rejection, DirectAdmit, Party.CanStartOn, RunLegs, ResolveCall, Completes, Amount, IsRoute, Party.Effects,
      PUMP_AMM_PROGRAM, METEORA_DLMM_PROGRAM, TRIO_REFS, Party.Metas;
    PlainIsAccepted(t, one, two, maxLoss);
    PlainIsAdmitted(t, one, two, maxLoss, ledger);
    PlainResolves(t, one, two);
    run := PlainCompletes(t, venue, ledger, one, two, maxLoss, middle, end);
    CompletesExactly(venue, t.Configuration(one, two, maxLoss), t.Accounts(), ledger, run);
  }

  lemma CarriesItself(table: seq<AccountMeta>)
    ensures Carries(table, table)
  {
  }
}
