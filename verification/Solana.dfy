/**
 The parts of the Solana runtime the executor relies on: keys, accounts, the ledger,
 instructions and cross-program calls. A venue is an arbitrary function; only the runtime's
 own rule limits what a call to it can change.
 */
module Solana {
  import opened Wrappers
  import opened Bytes

  /** A public key is its 32 bytes. */
  type Pubkey = k: seq<byte> | |k| == 32 witness [
    0, 0, 0, 0, 0, 0, 0, 0, 0, 0, 0, 0, 0, 0, 0, 0,
    0, 0, 0, 0, 0, 0, 0, 0, 0, 0, 0, 0, 0, 0, 0, 0]

  const SYSTEM_PROGRAM: Pubkey := [
    0, 0, 0, 0, 0, 0, 0, 0, 0, 0, 0, 0, 0, 0, 0, 0,
    0, 0, 0, 0, 0, 0, 0, 0, 0, 0, 0, 0, 0, 0, 0, 0]

  datatype Account = Account(lamports: nat, owner: Pubkey, executable: bool, data: seq<byte>)

  type Ledger = map<Pubkey, Account>

  const EMPTY_ACCOUNT: Account := Account(0, SYSTEM_PROGRAM, false, [])

  /** A key without an entry reads as an empty account of the system program. */
  function Get(ledger: Ledger, key: Pubkey): Account {
    if key in ledger then ledger[key] else EMPTY_ACCOUNT
  }

  datatype AccountMeta = AccountMeta(key: Pubkey, isSigner: bool, isWritable: bool)

  datatype Instruction = Instruction(programId: Pubkey, accounts: seq<AccountMeta>, data: seq<byte>)

  /** What the called program does to the ledger; `None` when it fails. */
  type Venue = (Instruction, Ledger) -> Option<Ledger>

  predicate Mentions(accounts: seq<AccountMeta>, key: Pubkey) {
    exists i :: 0 <= i < |accounts| && accounts[i].key == key
  }

  predicate GrantsSign(accounts: seq<AccountMeta>, key: Pubkey) {
    exists i :: 0 <= i < |accounts| && accounts[i].key == key && accounts[i].isSigner
  }

  predicate GrantsWrite(accounts: seq<AccountMeta>, key: Pubkey) {
    exists i :: 0 <= i < |accounts| && accounts[i].key == key && accounts[i].isWritable
  }

  /** Only writable, non-executable accounts passed to the call may differ afterwards. */
  predicate RuntimeAllows(accounts: seq<AccountMeta>, before: Ledger, after: Ledger) {
    forall k :: k in before.Keys + after.Keys && Get(before, k) != Get(after, k) ==>
                  GrantsWrite(accounts, k) && !Get(before, k).executable
  }

  /** A cross-program call: the venue's effect, or failure if it fails or breaks the runtime's rule. */
  function Invoke(venue: Venue, call: Instruction, ledger: Ledger): (r: Option<Ledger>)
    ensures r.Some? ==> forall k: Pubkey :: Get(r.value, k) != Get(ledger, k) ==>
                                              GrantsWrite(call.accounts, k) && !Get(ledger, k).executable
  {
    var r := venue(call, ledger);
    if r.Some? && RuntimeAllows(call.accounts, ledger, r.value) then r else None
  }

  /** A call takes effect exactly when the program succeeds and changes only what it was given to write. */
  lemma InvokeExactly(venue: Venue, call: Instruction, before: Ledger, after: Ledger)
    ensures Invoke(venue, call, before) == Some(after) <==>
            && venue(call, before) == Some(after)
            && forall k: Pubkey :: Get(before, k) != Get(after, k) ==>
                                     && !Get(before, k).executable
                                     && exists i :: 0 <= i < |call.accounts| && call.accounts[i].key == k
                                                    && call.accounts[i].isWritable
  {
  }
}
