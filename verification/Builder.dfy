/**
 The client's compiler (scripts/lib/atomic-executor.mjs): two venue instructions are merged into
 one account table without duplicates and one byte string that refers to it by index.
 The class and methods below mutate as the source does; each is proved against a function, and
 the lemmas say what that function's table means.
 */
module Builder {
  import opened Wrappers
  import opened Bytes
  import opened Solana
  import opened Codec
  import opened Abi

  // ---- The merged table

  /** The first position of `key`, or the table's length when it is absent. */
  function Find(table: seq<AccountMeta>, key: Pubkey): (i: nat)
    ensures i <= |table|
    ensures i < |table| ==> table[i].key == key
    ensures forall j :: 0 <= j < i ==> table[j].key != key
  {
    if table == [] || table[0].key == key then 0 else 1 + Find(table[1..], key)
  }

  function AddTo(table: seq<AccountMeta>, use: AccountMeta): seq<AccountMeta> {
    var i := Find(table, use.key);
    if i < |table| then
      table[i := AccountMeta(use.key, table[i].isSigner || use.isSigner, table[i].isWritable || use.isWritable)]
    else table + [use]
  }

  lemma FindAppended(table: seq<AccountMeta>, use: AccountMeta, key: Pubkey)
    requires Find(table, use.key) == |table|
    ensures Find(table + [use], key) ==
            if Find(table, key) < |table| then Find(table, key) else if key == use.key then |table| else |table| + 1
  {
    hide Find;
    var next := table + [use];
    assert next[|table|] == use;
    assert forall j :: 0 <= j < |table| ==> next[j] == table[j];
  }

  lemma {:induction false} SameKeysSameFind(a: seq<AccountMeta>, b: seq<AccountMeta>)
    requires |a| == |b| && forall i :: 0 <= i < |a| ==> a[i].key == b[i].key
    ensures forall k: Pubkey :: Find(a, k) == Find(b, k)
  {
    if a != [] {
      SameKeysSameFind(a[1..], b[1..]);
    }
  }

  function AddAll(table: seq<AccountMeta>, uses: seq<AccountMeta>): seq<AccountMeta> {
    if uses == [] then table
    else AddTo(AddAll(table, uses[..|uses| - 1]), uses[|uses| - 1])
  }

  predicate NoDuplicates(table: seq<AccountMeta>) {
    forall i, j :: 0 <= i < j < |table| ==> table[i].key != table[j].key
  }

  /** `table` holds every key used, once, with exactly the rights some use of it asks for. */
  ghost predicate IsMergeOf(table: seq<AccountMeta>, uses: seq<AccountMeta>) {
    && NoDuplicates(table)
    && (forall k: Pubkey :: Mentions(table, k) <==> Mentions(uses, k))
    && (forall i :: 0 <= i < |table| ==>
          && (table[i].isSigner <==> GrantsSign(uses, table[i].key))
          && (table[i].isWritable <==> GrantsWrite(uses, table[i].key)))
  }

  /** Old entries keep their positions and keys. */
  predicate Extends(before: seq<AccountMeta>, after: seq<AccountMeta>) {
    |before| <= |after| && forall i :: 0 <= i < |before| ==> after[i].key == before[i].key
  }

  lemma FindInExtension(before: seq<AccountMeta>, after: seq<AccountMeta>, key: Pubkey)
    requires Extends(before, after) && Find(before, key) < |before|
    ensures Find(after, key) == Find(before, key)
  {
    hide Find;
    var i := Find(before, key);
    assert after[i].key == key;
    assert forall j :: 0 <= j < i ==> before[j].key == after[j].key;
  }

  lemma AddToExtends(table: seq<AccountMeta>, use: AccountMeta)
    ensures Extends(table, AddTo(table, use)) && |AddTo(table, use)| <= |table| + 1
    ensures Find(AddTo(table, use), use.key) < |AddTo(table, use)|
  {
    hide Find;
    assert AddTo(table, use)[Find(table, use.key)].key == use.key;
  }

  lemma {:induction false} AddAllConcat(table: seq<AccountMeta>, a: seq<AccountMeta>, b: seq<AccountMeta>)
    ensures AddAll(table, a + b) == AddAll(AddAll(table, a), b)
    decreases |b|
  {
    if b == [] {
      assert a + b == a;
    } else {
      var last := |a + b| - 1;
      assert (a + b)[..last] == a + b[..|b| - 1] && (a + b)[last] == b[|b| - 1];
      AddAllConcat(table, a, b[..|b| - 1]);
    }
  }

  lemma {:induction false} AddAllExtends(table: seq<AccountMeta>, uses: seq<AccountMeta>)
    ensures Extends(table, AddAll(table, uses))
    ensures forall i :: 0 <= i < |uses| ==> Find(AddAll(table, uses), uses[i].key) < |AddAll(table, uses)|
    decreases |uses|
  {
    hide Find, AddTo;
    if uses != [] {
      var init, last := uses[..|uses| - 1], uses[|uses| - 1];
      AddAllExtends(table, init);
      var before, after := AddAll(table, init), AddAll(table, uses);
      AddToExtends(before, last);
      forall i | 0 <= i < |uses|
        ensures Find(after, uses[i].key) < |after|
      {
        if i < |init| {
          assert uses[i] == init[i];
          FindInExtension(before, after, uses[i].key);
        }
      }
    }
  }

  /** Merging is exact: no key twice, none missing or invented, flags the OR of all uses. */
  lemma {:induction false} MergeIsExact(uses: seq<AccountMeta>)
    ensures IsMergeOf(AddAll([], uses), uses)
    decreases |uses|
  {
    if uses != [] {
      var init, last := uses[..|uses| - 1], uses[|uses| - 1];
      MergeIsExact(init);
      MergeOneMore(AddAll([], init), init, last);
      assert uses == init + [last];
    }
  }

  lemma MergeOneMore(table: seq<AccountMeta>, uses: seq<AccountMeta>, use: AccountMeta)
    requires IsMergeOf(table, uses)
    ensures IsMergeOf(AddTo(table, use), uses + [use])
  {
    hide Find;
    var next, all, at := AddTo(table, use), uses + [use], Find(table, use.key);
    assert forall i :: 0 <= i < |uses| ==> all[i] == uses[i];
    assert all[|uses|] == use && next[at].key == use.key;
    assert forall i :: 0 <= i < |table| ==> next[i].key == table[i].key;
    forall k: Pubkey
      ensures Mentions(all, k) <==> Mentions(uses, k) || k == use.key
      ensures GrantsSign(all, k) <==> GrantsSign(uses, k) || (k == use.key && use.isSigner)
      ensures GrantsWrite(all, k) <==> GrantsWrite(uses, k) || (k == use.key && use.isWritable)
      ensures Mentions(next, k) <==> Mentions(table, k) || k == use.key
    {
    }
    if at == |table| {
      assert !Mentions(table, use.key);
    }
    forall i | 0 <= i < |next|
      ensures next[i].isSigner <==> GrantsSign(all, next[i].key)
      ensures next[i].isWritable <==> GrantsWrite(all, next[i].key)
    {
    }
  }

  // ---- What is built

  datatype BuildInput = BuildInput(
    executorProgramId: Pubkey,
    user: Pubkey,
    quote: Pubkey,
    intermediate: Pubkey,
    first: Instruction,
    second: Instruction,
    secondAmountOffset: int,
    minimumProfit: int,
    validUntilSlot: int)

  datatype BuildError = NotADexPair | BadAmountOffset | DataTooLong | TooManyAccounts | TableOverflow | ValueOutOfRange

  /** The first five entries the builder adds, before any account of a leg. */
  function Fixed(input: BuildInput): seq<AccountMeta> {
    [AccountMeta(input.user, true, false),
     AccountMeta(input.quote, false, true),
     AccountMeta(input.intermediate, false, true),
     AccountMeta(input.first.programId, false, false),
     AccountMeta(input.second.programId, false, false)]
  }

  function Uses(input: BuildInput): seq<AccountMeta> {
    Fixed(input) + input.first.accounts + input.second.accounts
  }

  function Table(input: BuildInput): seq<AccountMeta> {
    AddAll([], Uses(input))
  }

  predicate IsU64(n: int) {
    0 <= n < U64_LIMIT
  }

  /** The failure the builder reports, if any, in the order of its checks. */
  function Rejection(input: BuildInput): Option<BuildError> {
    if !IsDexPair(input.first.programId, input.second.programId) then Some(NotADexPair)
    else if input.secondAmountOffset < 0 || input.secondAmountOffset + 8 > |input.second.data|
    then Some(BadAmountOffset)
    else if |input.first.data| > 0xffff || |input.second.data| > 0xffff then Some(DataTooLong)
    else if |input.first.accounts| > 0xff || |input.second.accounts| > 0xff then Some(TooManyAccounts)
    else if |Table(input)| > 0x100 then Some(TableOverflow)
    else if !IsU64(input.minimumProfit) || !IsU64(input.validUntilSlot) then Some(ValueOutOfRange)
    else None
  }

  predicate Covers(table: seq<AccountMeta>, accounts: seq<AccountMeta>) {
    |table| <= 256 && forall i :: 0 <= i < |accounts| ==> Find(table, accounts[i].key) < |table|
  }

  function RefOf(table: seq<AccountMeta>, meta: AccountMeta): (r: AccountRef)
    requires |table| <= 256 && Find(table, meta.key) < |table|
    ensures r.Known() && r.Signer() == meta.isSigner && r.Writable() == meta.isWritable
    ensures r.index < |table| && table[r.index].key == meta.key
  {
    AccountRef(Find(table, meta.key), (if meta.isSigner then 1 else 0) + (if meta.isWritable then 2 else 0))
  }

  function RefsOf(table: seq<AccountMeta>, accounts: seq<AccountMeta>): (refs: seq<AccountRef>)
    requires Covers(table, accounts)
    ensures |refs| == |accounts|
    ensures forall i :: 0 <= i < |refs| ==> refs[i] == RefOf(table, accounts[i])
  {
    if accounts == [] then [] else
      var init := accounts[..|accounts| - 1];
      assert Covers(table, init) by {
        assert forall i :: 0 <= i < |init| ==> init[i] == accounts[i];
      }
      RefsOf(table, init) + [RefOf(table, accounts[|accounts| - 1])]
  }

  lemma PartIsCovered(before: seq<AccountMeta>, part: seq<AccountMeta>, after: seq<AccountMeta>)
    requires |AddAll([], before + part + after)| <= 256
    ensures Covers(AddAll([], before + part + after), part)
  {
    hide Find, AddTo, AddAll;
    var uses := before + part + after;
    AddAllExtends([], uses);
    assert forall i :: 0 <= i < |part| ==> uses[|before| + i] == part[i];
  }

  lemma TableCovers(input: BuildInput)
    requires |Table(input)| <= 256
    ensures Covers(Table(input), Fixed(input))
    ensures Covers(Table(input), input.first.accounts)
    ensures Covers(Table(input), input.second.accounts)
  {
    hide AddAll, Covers, Fixed;
    var fixed, first, second := Fixed(input), input.first.accounts, input.second.accounts;
    assert [] + fixed + (first + second) == Uses(input) == fixed + first + second == (fixed + first) + second + [];
    PartIsCovered([], fixed, first + second);
    PartIsCovered(fixed, first, second);
    PartIsCovered(fixed + first, second, []);
  }

  function BuiltConfig(input: BuildInput): (c: Config)
    requires Rejection(input).None?
    ensures Encodable(c)
  {
    var table := Table(input);
    TableCovers(input);
    assert Fixed(input)[3].key == input.first.programId && Fixed(input)[4].key == input.second.programId;
    Config(
      Find(table, input.first.programId), Find(table, input.second.programId), 1, 2,
      input.secondAmountOffset, input.minimumProfit, input.validUntilSlot,
      RefsOf(table, input.first.accounts), RefsOf(table, input.second.accounts),
      input.first.data, input.second.data)
  }

  /** The instruction a successful build returns. */
  function Built(input: BuildInput): Instruction
    requires Rejection(input).None?
  {
    Instruction(input.executorProgramId, Table(input), Serialize(BuiltConfig(input)))
  }

  lemma AddAllNothing(table: seq<AccountMeta>)
    ensures AddAll(table, []) == table
  {
  }

  lemma AddAllSnoc(table: seq<AccountMeta>, uses: seq<AccountMeta>, use: AccountMeta)
    ensures AddAll(table, uses + [use]) == AddTo(AddAll(table, uses), use)
  {
    assert (uses + [use])[..|uses|] == uses;
  }

  lemma AddAllDistinct(a: AccountMeta, b: AccountMeta, c: AccountMeta)
    requires a.key != b.key && a.key != c.key && b.key != c.key
    ensures AddAll([], [a, b, c]) == [a, b, c]
  {
    AddAllNothing([]);
    AddAllSnoc([], [], a);
    AddAllSnoc([], [a], b);
    AddAllSnoc([], [a, b], c);
    hide Find, AddAll;
    assert [] + [a] == [a] && [a] + [b] == [a, b] && [a, b] + [c] == [a, b, c];
  }

  lemma TableBeginsWithUser(input: BuildInput)
    ensures |Table(input)| > 0 && Table(input)[0].key == input.user && Table(input)[0].isSigner
  {
    var uses := Uses(input);
    var first := Fixed(input)[0];
    AddAllSnoc([], [], first);
    assert AddAll([], [first]) == [first];
    assert uses == [first] + uses[1..];
    AddAllConcat([], [first], uses[1..]);
    AddAllExtends([first], uses[1..]);
    MergeIsExact(uses);
    assert GrantsSign(uses, input.user) by {
      assert uses[0] == first;
    }
  }

  /** Accounts 0, 1 and 2 are the user, quote and intermediate accounts exactly when those three differ. */
  lemma FixedPositions(input: BuildInput)
    ensures var t := Table(input);
            (|t| >= 3 && t[0].key == input.user && t[1].key == input.quote && t[2].key == input.intermediate)
            <==> (input.user != input.quote && input.user != input.intermediate && input.quote != input.intermediate)
  {
    var uses, fixed := Uses(input), Fixed(input);
    if input.user != input.quote && input.user != input.intermediate && input.quote != input.intermediate {
      var three := [fixed[0], fixed[1], fixed[2]];
      assert uses == three + uses[3..];
      AddAllDistinct(fixed[0], fixed[1], fixed[2]);
      AddAllConcat([], three, uses[3..]);
      AddAllExtends(three, uses[3..]);
    } else {
      MergeIsExact(uses);
    }
  }

  lemma RefsInExtension(before: seq<AccountMeta>, after: seq<AccountMeta>, accounts: seq<AccountMeta>)
    requires Extends(before, after) && |after| <= 256 && Covers(before, accounts)
    ensures Covers(after, accounts) && RefsOf(after, accounts) == RefsOf(before, accounts)
  {
    forall i | 0 <= i < |accounts|
      ensures Find(after, accounts[i].key) == Find(before, accounts[i].key)
    {
      FindInExtension(before, after, accounts[i].key);
    }
  }

  lemma RefsOfNothing(table: seq<AccountMeta>)
    requires |table| <= 256
    ensures Covers(table, []) && RefsOf(table, []) == []
  {
  }

  lemma RefsSnoc(table: seq<AccountMeta>, accounts: seq<AccountMeta>, meta: AccountMeta)
    requires Covers(table, accounts) && Find(table, meta.key) < |table|
    ensures Covers(table, accounts + [meta])
    ensures RefsOf(table, accounts + [meta]) == RefsOf(table, accounts) + [RefOf(table, meta)]
  {
  }

  lemma PrefixStep(table: seq<AccountMeta>, accounts: seq<AccountMeta>, i: nat)
    requires i < |accounts|
    ensures accounts[..i + 1] == accounts[..i] + [accounts[i]]
    ensures AddAll(table, accounts[..i + 1]) == AddTo(AddAll(table, accounts[..i]), accounts[i])
    ensures |AddAll(table, accounts[..i + 1])| <= |AddAll(table, accounts)|
  {
    assert accounts[..i + 1] == accounts[..i] + [accounts[i]];
    AddAllSnoc(table, accounts[..i], accounts[i]);
    assert accounts == accounts[..i + 1] + accounts[i + 1..];
    AddAllConcat(table, accounts[..i + 1], accounts[i + 1..]);
    AddAllExtends(AddAll(table, accounts[..i + 1]), accounts[i + 1..]);
  }

  // ---- The table and the refusals, in terms of the input alone

  /** Every key the input names, the two programs included. */
  function UsedKeys(input: BuildInput): set<Pubkey> {
    {input.user, input.quote, input.intermediate, input.first.programId, input.second.programId}
    + KeysOf(input.first.accounts) + KeysOf(input.second.accounts)
  }

  function Legs(input: BuildInput): seq<AccountMeta> {
    input.first.accounts + input.second.accounts
  }

  /** The table holds each key named once, with a right exactly if its role or some leg asks for it. */
  lemma TableRights(input: BuildInput)
    ensures var t, legs := Table(input), Legs(input);
            && (forall i, j :: 0 <= i < j < |t| ==> t[i].key != t[j].key)
            && (forall k: Pubkey :: Mentions(t, k) <==> k in UsedKeys(input))
            && (forall i :: 0 <= i < |t| ==>
                  && (t[i].isSigner <==> t[i].key == input.user || GrantsSign(legs, t[i].key))
                  && (t[i].isWritable <==>
                      t[i].key == input.quote || t[i].key == input.intermediate || GrantsWrite(legs, t[i].key)))
  {
    var uses, fixed, legs := Uses(input), Fixed(input), Legs(input);
    MergeIsExact(uses);
    assert uses == fixed + legs;
    hide AddAll;
    forall k: Pubkey
      ensures Mentions(uses, k) <==> k in UsedKeys(input)
      ensures GrantsSign(uses, k) <==> k == input.user || GrantsSign(legs, k)
      ensures GrantsWrite(uses, k) <==> k == input.quote || k == input.intermediate || GrantsWrite(legs, k)
    {
      UsesOfKey(input, k);
    }
  }

  function KeysOf(metas: seq<AccountMeta>): set<Pubkey> {
    set m | m in metas :: m.key
  }

  lemma KeysAreMentions(metas: seq<AccountMeta>, k: Pubkey)
    ensures k in KeysOf(metas) <==> Mentions(metas, k)
  {
    if k in KeysOf(metas) {
      var m :| m in metas && m.key == k;
      var i :| 0 <= i < |metas| && metas[i] == m;
    }
  }

  lemma MentionsConcat(a: seq<AccountMeta>, b: seq<AccountMeta>, k: Pubkey)
    ensures Mentions(a + b, k) <==> Mentions(a, k) || Mentions(b, k)
    ensures GrantsSign(a + b, k) <==> GrantsSign(a, k) || GrantsSign(b, k)
    ensures GrantsWrite(a + b, k) <==> GrantsWrite(a, k) || GrantsWrite(b, k)
  {
    assert forall i :: 0 <= i < |a| ==> (a + b)[i] == a[i];
    assert forall i :: 0 <= i < |b| ==> (a + b)[|a| + i] == b[i];
  }

  lemma FixedOfKey(input: BuildInput, k: Pubkey)
    ensures var fixed := Fixed(input);
            && (Mentions(fixed, k) <==>
                k in {input.user, input.quote, input.intermediate, input.first.programId, input.second.programId})
            && (GrantsSign(fixed, k) <==> k == input.user)
            && (GrantsWrite(fixed, k) <==> k == input.quote || k == input.intermediate)
  {
    var fixed := Fixed(input);
    assert fixed[0].key == input.user && fixed[1].key == input.quote && fixed[2].key == input.intermediate;
    assert fixed[3].key == input.first.programId && fixed[4].key == input.second.programId;
  }

  lemma UsesOfKey(input: BuildInput, k: Pubkey)
    ensures var uses, legs := Uses(input), Legs(input);
            && (Mentions(uses, k) <==> k in UsedKeys(input))
            && (GrantsSign(uses, k) <==> k == input.user || GrantsSign(legs, k))
            && (GrantsWrite(uses, k) <==> k == input.quote || k == input.intermediate || GrantsWrite(legs, k))
  {
    hide Fixed, Mentions, GrantsSign, GrantsWrite, KeysOf;
    assert Uses(input) == Fixed(input) + Legs(input);
    MentionsConcat(Fixed(input), Legs(input), k);
    MentionsConcat(input.first.accounts, input.second.accounts, k);
    FixedOfKey(input, k);
    KeysAreMentions(input.first.accounts, k);
    KeysAreMentions(input.second.accounts, k);
  }

  lemma {:induction false} DistinctKeysCount(table: seq<AccountMeta>)
    requires NoDuplicates(table)
    ensures |KeysOf(table)| == |table|
    decreases |table|
  {
    if table != [] {
      var init, last := table[..|table| - 1], table[|table| - 1];
      DistinctKeysCount(init);
      assert table == init + [last];
      assert KeysOf(table) == KeysOf(init) + {last.key} by {
        forall k: Pubkey
          ensures k in KeysOf(table) <==> k in KeysOf(init) || k == last.key
        {
          KeysAreMentions(table, k);
          KeysAreMentions(init, k);
          MentionsConcat(init, [last], k);
          assert [last][0] == last;
        }
      }
      assert last.key !in KeysOf(init) by {
        KeysAreMentions(init, last.key);
      }
    }
  }

  lemma TableCountsKeys(input: BuildInput)
    ensures |Table(input)| == |UsedKeys(input)|
  {
    hide AddAll, Uses;
    TableRights(input);
    DistinctKeysCount(Table(input));
    assert KeysOf(Table(input)) == UsedKeys(input) by {
      forall k: Pubkey
        ensures k in KeysOf(Table(input)) <==> k in UsedKeys(input)
      {
        KeysAreMentions(Table(input), k);
      }
    }
  }

  predicate InFirstUseOrder(table: seq<AccountMeta>, uses: seq<AccountMeta>) {
    && (forall i :: 0 <= i < |table| ==> Find(uses, table[i].key) < |uses|)
    && forall i, j :: 0 <= i < j < |table| ==> Find(uses, table[i].key) < Find(uses, table[j].key)
  }

  lemma OrderOneMore(table: seq<AccountMeta>, uses: seq<AccountMeta>, use: AccountMeta)
    requires InFirstUseOrder(table, uses) && (Mentions(table, use.key) <==> Mentions(uses, use.key))
    ensures InFirstUseOrder(AddTo(table, use), uses + [use])
  {
    AddToExtends(table, use);
    hide Find;
    var next := AddTo(table, use);
    forall i | 0 <= i < |table|
      ensures next[i].key == table[i].key && Find(uses + [use], next[i].key) == Find(uses, table[i].key)
    {
      FindInLonger(uses, use, table[i].key);
    }
    if |next| > |table| {
      assert next == table + [use] && !Mentions(table, use.key);
      FindInLonger(uses, use, use.key);
    }
  }

  /** The table is in the order of first use: the five named keys, then leg one's, then leg two's. */
  lemma {:induction false} TableIsInFirstUseOrder(uses: seq<AccountMeta>)
    ensures InFirstUseOrder(AddAll([], uses), uses)
    decreases |uses|
  {
    if uses == [] {
      return;
    }
    hide Find, AddTo, InFirstUseOrder, Mentions;
    var init, last := uses[..|uses| - 1], uses[|uses| - 1];
    TableIsInFirstUseOrder(init);
    MergeIsExact(init);
    assert uses == init + [last];
    OrderOneMore(AddAll([], init), init, last);
  }

  lemma FindInLonger(init: seq<AccountMeta>, last: AccountMeta, key: Pubkey)
    ensures Find(init, key) < |init| ==> Find(init + [last], key) == Find(init, key)
    ensures !Mentions(init, key) ==> Find(init + [last], key) == if last.key == key then |init| else |init| + 1
  {
    hide Find;
    var all := init + [last];
    assert all[|init|] == last && forall j :: 0 <= j < |init| ==> all[j] == init[j];
  }

  /** A byte string the program would parse, with this input's payloads, numbers and counts in it. */
  predicate Carried(input: BuildInput, data: seq<byte>, c: Config) {
    && WireForm(data, c)
    && |c.firstRefs| == |input.first.accounts| && |c.secondRefs| == |input.second.accounts|
    && c.firstData == input.first.data && c.secondData == input.second.data
    && c.secondAmountOffset == input.secondAmountOffset
    && c.minimumProfit == input.minimumProfit && c.validUntilSlot == input.validUntilSlot
  }

  /** Why the builder refuses, if it does: the first of these that applies. */
  lemma RejectsExactly(input: BuildInput)
    ensures Rejection(input) ==
            if input.first.programId == input.second.programId
               || !({input.first.programId, input.second.programId} <= {PUMP_AMM_PROGRAM, METEORA_DLMM_PROGRAM})
            then Some(NotADexPair)
            else if !(0 <= input.secondAmountOffset <= |input.second.data| - 8) then Some(BadAmountOffset)
            else if |input.first.data| >= 65536 || |input.second.data| >= 65536 then Some(DataTooLong)
            else if |input.first.accounts| >= 256 || |input.second.accounts| >= 256 then Some(TooManyAccounts)
            else if |UsedKeys(input)| > 256 then Some(TableOverflow)
            else if !(0 <= input.minimumProfit < 18446744073709551616
                      && 0 <= input.validUntilSlot < 18446744073709551616)
            then Some(ValueOutOfRange)
            else None
  {
    TableCountsKeys(input);
    VenuesDiffer();
    hide Table, UsedKeys, PUMP_AMM_PROGRAM, METEORA_DLMM_PROGRAM;
  }

  /** The builder takes an input exactly when the program could be told of it at all. */
  lemma AcceptsExactly(input: BuildInput)
    ensures Rejection(input).None? <==>
            && input.first.programId != input.second.programId
            && {input.first.programId, input.second.programId} <= {PUMP_AMM_PROGRAM, METEORA_DLMM_PROGRAM}
            && |UsedKeys(input)| <= 256
            && exists data: seq<byte>, c: Config :: Carried(input, data, c)
  {
    RejectsExactly(input);
    hide UsedKeys, PUMP_AMM_PROGRAM, METEORA_DLMM_PROGRAM, Table, WireForm, Fixed;
    if Rejection(input).None? {
      var c := BuiltConfig(input);
      hide Rejection;
      ParseOfSerialize(c);
      ParsesExactly(Serialize(c), c);
      BuiltCarries(input);
      assert Carried(input, Serialize(c), c);
    }
    forall data: seq<byte>, c: Config | Carried(input, data, c)
      ensures 0 <= input.secondAmountOffset <= |input.second.data| - 8
      ensures |input.first.data| < 65536 && |input.second.data| < 65536
      ensures |input.first.accounts| < 256 && |input.second.accounts| < 256
      ensures 0 <= input.minimumProfit < 18446744073709551616 && 0 <= input.validUntilSlot < 18446744073709551616
    {
      WireFormBounds(data, c);
    }
  }

  lemma WireFormBounds(data: seq<byte>, c: Config)
    requires WireForm(data, c)
    ensures c.secondAmountOffset <= |c.secondData| - 8 && |c.firstData| < 65536 && |c.secondData| < 65536
    ensures |c.firstRefs| < 256 && |c.secondRefs| < 256
  {
    hide U64At, RefsAt;
  }

  lemma BuiltCarries(input: BuildInput)
    requires Rejection(input).None?
    ensures var c := BuiltConfig(input);
            && |c.firstRefs| == |input.first.accounts| && |c.secondRefs| == |input.second.accounts|
            && c.firstData == input.first.data && c.secondData == input.second.data
            && c.secondAmountOffset == input.secondAmountOffset
            && c.minimumProfit == input.minimumProfit && c.validUntilSlot == input.validUntilSlot
            && c.quoteIndex == 1 && c.intermediateIndex == 2
  {
    hide Find, AddAll, IsDexPair;
  }

  /** What is built, from the caller's side: addressed to the executor, over the table, and parsing to the input. */
  lemma BuiltExactly(input: BuildInput)
    requires Rejection(input).None?
    ensures var b := Built(input);
            && b.programId == input.executorProgramId && b.accounts == Table(input)
            && Parse(b.data).Ok? && Carried(input, b.data, Parse(b.data).value)
            && Parse(b.data).value.quoteIndex == 1 && Parse(b.data).value.intermediateIndex == 2
  {
    hide Rejection, BuiltConfig, Serialize, Parse, WireForm, Table;
    var c := BuiltConfig(input);
    ParseOfSerialize(c);
    ParsesExactly(Serialize(c), c);
    BuiltCarries(input);
  }

  // ---- The imperative builder

  class AccountTable {
    var metas: seq<AccountMeta>
    var indexes: map<Pubkey, nat>

    ghost predicate Valid()
      reads this
    {
      && (forall k: Pubkey :: k in indexes <==> Find(metas, k) < |metas|)
      && (forall k :: k in indexes ==> indexes[k] == Find(metas, k))
      && |metas| <= 256
    }

    constructor ()
      ensures Valid() && metas == []
    {
      metas, indexes := [], map[];
    }

    /** Adds one use of an account; `None` when a new entry would not fit a one-byte index. */
    method AddMeta(use: AccountMeta) returns (index: Option<byte>)
      requires Valid()
      modifies this
      ensures Valid()
      ensures index.None? <==> |AddTo(old(metas), use)| > 256
      ensures metas == if index.None? then old(metas) else AddTo(old(metas), use)
      ensures index.Some? ==> index.value == Find(metas, use.key) < |metas|
    {
      if use.key in indexes {
        var at := indexes[use.key];
        var existing := metas[at];
        var signs, writes := existing.isSigner || use.isSigner, existing.isWritable || use.isWritable;
        metas := metas[at := AccountMeta(existing.key, signs, writes)];
        SameKeysSameFind(old(metas), metas);
        return Some(at);
      }
      if |metas| >= 0x100 {
        return None;
      }
      metas := metas + [use];
      indexes := indexes[use.key := |metas| - 1];
      forall k: Pubkey
        ensures k in indexes <==> Find(metas, k) < |metas|
        ensures k in indexes ==> indexes[k] == Find(metas, k)
      {
        FindAppended(old(metas), use, k);
      }
      index := Some(|metas| - 1);
    }

    /** Adds every account of a leg, in order, collecting the references to them. */
    method RefsFor(accounts: seq<AccountMeta>) returns (refs: Option<seq<AccountRef>>)
      requires Valid()
      modifies this
      ensures Valid()
      ensures refs.None? <==> |AddAll(old(metas), accounts)| > 256
      ensures refs.Some? ==>
                && metas == AddAll(old(metas), accounts)
                && Covers(metas, accounts)
                && refs.value == RefsOf(metas, accounts)
    {
      ghost var start := metas;
      var out := [];
      assert AddAll(start, []) == start && accounts[..0] == [];
      hide AddTo, AddAll, Covers, RefsOf, Find;
      RefsOfNothing(start);
      for i := 0 to |accounts|
        invariant Valid()
        invariant metas == AddAll(start, accounts[..i])
        invariant Covers(metas, accounts[..i]) && out == RefsOf(metas, accounts[..i])
      {
        ghost var before := metas;
        PrefixStep(start, accounts, i);
        AddToExtends(before, accounts[i]);
        var index := AddMeta(accounts[i]);
        if index.None? {
          return None;
        }
        RefsInExtension(before, metas, accounts[..i]);
        RefsSnoc(metas, accounts[..i], accounts[i]);
        var flags := (if accounts[i].isSigner then 1 else 0) + (if accounts[i].isWritable then 2 else 0);
        out := out + [AccountRef(index.value, flags)];
      }
      assert accounts[..|accounts|] == accounts;
      refs := Some(out);
    }
  }

  /** Copies `bytes` into the buffer at `at`. */
  method WriteAt(buffer: array<byte>, at: nat, bytes: seq<byte>)
    requires at + |bytes| <= buffer.Length
    modifies buffer
    ensures buffer[..at + |bytes|] == old(buffer[..at]) + bytes
    ensures buffer[at + |bytes|..] == old(buffer[at + |bytes|..])
  {
    for i := 0 to |bytes|
      invariant forall k :: 0 <= k < i ==> buffer[at + k] == bytes[k]
      invariant forall k :: 0 <= k < buffer.Length && !(at <= k < at + i) ==> buffer[k] == old(buffer[k])
    {
      buffer[at + i] := bytes[i];
    }
  }

  /** The header fields, each at its fixed offset. */
  method WriteHeader(buffer: array<byte>, c: Config)
    requires Encodable(c) && buffer.Length >= HEADER_LEN
    modifies buffer
    ensures buffer[..HEADER_LEN] == Header(c)
  {
    hide ToLe;
    ghost var plain := [VERSION, c.firstProgramIndex, c.secondProgramIndex, c.quoteIndex, c.intermediateIndex,
                        |c.firstRefs|, |c.secondRefs|];
    WriteAt(buffer, 0, MAGIC);
    assert buffer[..4] == MAGIC;
    WriteAt(buffer, 4, [VERSION, c.firstProgramIndex, c.secondProgramIndex, c.quoteIndex, c.intermediateIndex,
                        |c.firstRefs|, |c.secondRefs|]);
    assert buffer[..11] == MAGIC + plain;
    WriteAt(buffer, 11, ToLe(c.secondAmountOffset, 2));
    WriteAt(buffer, 13, ToLe(c.minimumProfit, 8));
    WriteAt(buffer, 21, ToLe(c.validUntilSlot, 8));
    WriteAt(buffer, 29, ToLe(|c.firstData|, 2));
    WriteAt(buffer, 31, ToLe(|c.secondData|, 2));
  }

  /** The header fields are written at fixed offsets, then references and payloads behind a moving cursor. */
  method WriteInstruction(c: Config) returns (buffer: array<byte>)
    requires Encodable(c)
    ensures fresh(buffer) && buffer[..] == Serialize(c)
  {
    hide Serialize, SerializeRefs, Header;
    var refs := c.firstRefs + c.secondRefs;
    buffer := new byte[33 + 2 * |refs| + |c.firstData| + |c.secondData|](i => 0);
    WriteHeader(buffer, c);
    WriteBody(buffer, c, refs);
  }

  /** Every reference as two bytes, behind what is already written. */
  method WriteRefs(buffer: array<byte>, start: nat, refs: seq<AccountRef>) returns (cursor: nat)
    requires start + 2 * |refs| <= buffer.Length
    modifies buffer
    ensures cursor == start + 2 * |refs|
    ensures buffer[..cursor] == old(buffer[..start]) + SerializeRefs(refs)
  {
    cursor := start;
    assert refs[..0] == [];
    for i := 0 to |refs|
      invariant cursor == start + 2 * i
      invariant buffer[..cursor] == old(buffer[..start]) + SerializeRefs(refs[..i])
    {
      ghost var written := buffer[..cursor];
      buffer[cursor] := refs[i].index;
      buffer[cursor + 1] := refs[i].flags;
      cursor := cursor + 2;
      SerializeOneMore(refs, i);
      assert buffer[..cursor] == written + [refs[i].index, refs[i].flags];
    }
    assert refs[..|refs|] == refs;
  }

  lemma SerializeOneMore(refs: seq<AccountRef>, i: nat)
    requires i < |refs|
    ensures SerializeRefs(refs[..i + 1]) == SerializeRefs(refs[..i]) + [refs[i].index, refs[i].flags]
  {
    SerializeRefsConcat(refs[..i], [refs[i]]);
    assert refs[..i + 1] == refs[..i] + [refs[i]];
    assert SerializeRefs([refs[i]]) == [refs[i].index, refs[i].flags];
  }

  method WriteBody(buffer: array<byte>, c: Config, refs: seq<AccountRef>)
    requires Encodable(c) && refs == c.firstRefs + c.secondRefs
    requires buffer.Length == 33 + 2 * |refs| + |c.firstData| + |c.secondData|
    requires buffer[..33] == Header(c)
    modifies buffer
    ensures buffer[..] == Serialize(c)
  {
    hide Header, SerializeRefs;
    SerializeRefsConcat(c.firstRefs, c.secondRefs);
    var cursor := WriteRefs(buffer, 33, refs);
    WriteAt(buffer, cursor, c.firstData);
    cursor := cursor + |c.firstData|;
    WriteAt(buffer, cursor, c.secondData);
    assert buffer[..] == buffer[..cursor + |c.secondData|];
  }

  datatype Merged = Merged(
    table: seq<AccountMeta>,
    firstProgramIndex: byte,
    secondProgramIndex: byte,
    firstRefs: seq<AccountRef>,
    secondRefs: seq<AccountRef>)

  lemma AddAllFive(a: AccountMeta, b: AccountMeta, c: AccountMeta, d: AccountMeta, e: AccountMeta)
    ensures var t3 := AddTo(AddTo(AddTo([], a), b), c);
            && |AddTo([], a)| <= 1 && |AddTo(AddTo([], a), b)| <= 2 && |t3| <= 3
            && |AddTo(t3, d)| <= 4 && |AddTo(AddTo(t3, d), e)| <= 5
            && Extends(AddTo(t3, d), AddTo(AddTo(t3, d), e))
            && AddAll([], [a, b, c, d, e]) == AddTo(AddTo(t3, d), e)
  {
    hide Find, AddTo, AddAll;
    var t1 := AddTo([], a);
    var t2 := AddTo(t1, b);
    var t3 := AddTo(t2, c);
    var t4 := AddTo(t3, d);
    AddToExtends([], a);
    AddToExtends(t1, b);
    AddToExtends(t2, c);
    AddToExtends(t3, d);
    AddToExtends(t4, e);
    AddAllNothing([]);
    AddAllSnoc([], [], a);
    AddAllSnoc([], [a], b);
    AddAllSnoc([], [a, b], c);
    AddAllSnoc([], [a, b, c], d);
    AddAllSnoc([], [a, b, c, d], e);
    assert [] + [a] == [a] && [a] + [b] == [a, b] && [a, b] + [c] == [a, b, c]
      && [a, b, c] + [d] == [a, b, c, d] && [a, b, c, d] + [e] == [a, b, c, d, e];
  }

  /** Adds the five fixed entries in order and returns the two program indexes. */
  method AddFixed(table: AccountTable, input: BuildInput) returns (first: byte, second: byte)
    requires table.Valid() && table.metas == []
    modifies table
    ensures table.Valid() && table.metas == AddAll([], Fixed(input))
    ensures first == Find(table.metas, input.first.programId) < |table.metas|
    ensures second == Find(table.metas, input.second.programId) < |table.metas|
  {
    ghost var u, q, i, f, n := Fixed(input)[0], Fixed(input)[1], Fixed(input)[2], Fixed(input)[3], Fixed(input)[4];
    AddAllFive(u, q, i, f, n);
    var user := table.AddMeta(AccountMeta(input.user, true, false));
    var quote := table.AddMeta(AccountMeta(input.quote, false, true));
    var intermediate := table.AddMeta(AccountMeta(input.intermediate, false, true));
    var firstIndex := table.AddMeta(AccountMeta(input.first.programId, false, false));
    ghost var four := table.metas;
    var secondIndex := table.AddMeta(AccountMeta(input.second.programId, false, false));
    FindInExtension(four, table.metas, input.first.programId);
    first, second := firstIndex.value, secondIndex.value;
  }

  method MergeLegs(input: BuildInput) returns (r: Option<Merged>)
    ensures r.None? <==> |Table(input)| > 256
    ensures r.Some? ==>
              var t := Table(input);
              && Covers(t, input.first.accounts) && Covers(t, input.second.accounts)
              && r.value.table == t
              && r.value.firstProgramIndex == Find(t, input.first.programId)
              && r.value.secondProgramIndex == Find(t, input.second.programId)
              && r.value.firstRefs == RefsOf(t, input.first.accounts)
              && r.value.secondRefs == RefsOf(t, input.second.accounts)
  {
    hide AddTo, AddAll, Covers, RefsOf, Find, Fixed;
    var table := new AccountTable();
    var first, second := AddFixed(table, input);
    ghost var fixed, firstAccounts, secondAccounts := Fixed(input), input.first.accounts, input.second.accounts;
    ghost var t0 := table.metas;
    ghost var t1 := AddAll(t0, firstAccounts);
    ghost var t2 := AddAll(t1, secondAccounts);
    AddAllConcat([], fixed, firstAccounts);
    AddAllConcat([], fixed + firstAccounts, secondAccounts);
    assert t2 == Table(input);
    AddAllExtends(t0, firstAccounts);
    AddAllExtends(t1, secondAccounts);
    var firstRefs := table.RefsFor(input.first.accounts);
    if firstRefs.None? {
      return None;
    }
    var secondRefs := table.RefsFor(input.second.accounts);
    if secondRefs.None? {
      return None;
    }
    RefsInExtension(t1, t2, firstAccounts);
    FindInExtension(t0, t2, input.first.programId);
    FindInExtension(t0, t2, input.second.programId);
    r := Some(Merged(table.metas, first, second, firstRefs.value, secondRefs.value));
  }

  lemma MergedGivesConfig(input: BuildInput, m: Merged)
    requires Rejection(input).None?
    requires Covers(m.table, input.first.accounts) && Covers(m.table, input.second.accounts)
    requires m.table == Table(input)
    requires m.firstProgramIndex == Find(m.table, input.first.programId)
    requires m.secondProgramIndex == Find(m.table, input.second.programId)
    requires m.firstRefs == RefsOf(m.table, input.first.accounts)
    requires m.secondRefs == RefsOf(m.table, input.second.accounts)
    ensures BuiltConfig(input) == Config(
              m.firstProgramIndex, m.secondProgramIndex, 1, 2,
              input.secondAmountOffset, input.minimumProfit, input.validUntilSlot,
              m.firstRefs, m.secondRefs, input.first.data, input.second.data)
  {
    hide Find, AddTo, AddAll, Fixed, Covers;
  }

  method BuildExecutorInstruction(input: BuildInput) returns (r: Result<Instruction, BuildError>)
    ensures match Rejection(input)
            case Some(e) => r == Err(e)
            case None => r == Ok(Built(input))
  {
    hide Serialize, BuiltConfig, Covers, RefsOf, Find, Table, IsDexPair;
    if !IsDexPair(input.first.programId, input.second.programId) {
      return Err(NotADexPair);
    }
    if input.secondAmountOffset < 0 || input.secondAmountOffset + 8 > |input.second.data| {
      return Err(BadAmountOffset);
    }
    if |input.first.data| > 0xffff || |input.second.data| > 0xffff {
      return Err(DataTooLong);
    }
    if |input.first.accounts| > 0xff || |input.second.accounts| > 0xff {
      return Err(TooManyAccounts);
    }
    var merged := MergeLegs(input);
    if merged.None? {
      return Err(TableOverflow);
    }
    if !IsU64(input.minimumProfit) || !IsU64(input.validUntilSlot) {
      return Err(ValueOutOfRange);
    }
    var m := merged.value;
    MergedGivesConfig(input, m);
    var buffer := WriteInstruction(Config(
      m.firstProgramIndex, m.secondProgramIndex, 1, 2,
      input.secondAmountOffset, input.minimumProfit, input.validUntilSlot,
      m.firstRefs, m.secondRefs, input.first.data, input.second.data));
    r := Ok(Instruction(input.executorProgramId, m.table, buffer[..]));
  }
}
