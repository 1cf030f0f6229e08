/**
 The same ledger as the source's objects (backrunner/coordination.py, backrunner/cli.py): a lock that
 creates and unlinks a file, a store that loads and replaces one, and the trigger path over both. Each
 method is the run of one process nobody interrupts, proved to be one operation of module `Evidence`;
 module `Protocol` proves the same of every interleaving.
 */
module EvidenceStore {
  import opened Wrappers
  import opened Evidence

  type Token = nat

  datatype LockError = ActiveAttempt | LockWriteFailed | SaveFailed | Unreadable | OwnershipChanged

  /** Whether the disk does its part: writing the lock's owner payload, saving, and reading and removing the lock. */
  datatype Disk = Disk(lockWritten: bool, saved: bool, released: bool)

  /** A lock path: no file, a file without a readable token, or a file with one. */
  class LockPath {
    var held: bool
    var token: Option<Token>

    constructor ()
      ensures !held
    {
      held, token := false, None;
    }
  }

  class AttemptLock {
    const path: LockPath
    var token: Option<Token>

    constructor (path: LockPath)
      ensures this.path == path && token.None?
    {
      this.path := path;
      token := None;
    }

    /** Exclusive create, then the owner payload; a failed write removes the file again. */
    method Enter(newToken: Token, payloadWritten: bool) returns (r: Outcome<LockError>)
      modifies this, path
      ensures old(path.held) ==> r == Fail(ActiveAttempt) && unchanged(this) && unchanged(path)
      ensures !old(path.held) && !payloadWritten ==> r == Fail(LockWriteFailed) && !path.held && unchanged(this)
      ensures !old(path.held) && payloadWritten ==>
                r == Pass && path.held && path.token == Some(newToken) && token == Some(newToken)
    {
      if path.held {
        return Fail(ActiveAttempt);
      }
      path.held, path.token := true, None;
      if !payloadWritten {
        path.held := false;
        return Fail(LockWriteFailed);
      }
      path.token := Some(newToken);
      token := Some(newToken);
      r := Pass;
    }

    /** Releases only what carries this owner's token; any doubt, or a failing disk, leaves the file in place. */
    method Exit(released: bool) returns (r: Outcome<LockError>)
      modifies this, path
      ensures old(token).None? ==> r == Pass && unchanged(this) && unchanged(path)
      ensures old(token).Some? ==>
                r == (if !released || !old(path.held) || old(path.token).None? then Fail(Unreadable)
                      else if old(path.token) != old(token) then Fail(OwnershipChanged)
                      else Pass)
      ensures old(token).Some? && r.Pass? ==> !path.held && token.None?
      ensures r.Fail? ==> unchanged(this) && unchanged(path)
    {
      if token.None? {
        return Pass;
      }
      if !released || !path.held || path.token.None? {
        return Fail(Unreadable);
      }
      if path.token.value != token.value {
        return Fail(OwnershipChanged);
      }
      path.held := false;
      token := None;
      r := Pass;
    }
  }

  /** What a write leaves: the payload, whether the lock file is still there, and what the caller is told. */
  datatype Written = Written(payload: Payload, held: bool, answer: Result<Reply, LockError>)

  /**
   A write by one process: the atomic operation, unless it is malformed, the lock is taken, or the disk fails.
   A failed save changes nothing; a failed release comes too late to undo the change, and leaves the lock.
   */
  function Write(p: Payload, held: bool, op: Op, disk: Disk): Written {
    var effect := Perform(p, op);
    if Malformed(op).Some? then Written(p, held, Ok(effect.reply))
    else if held then Written(p, held, Err(ActiveAttempt))
    else if !disk.lockWritten then Written(p, false, Err(LockWriteFailed))
    else
      var lost := effect.reply == Done && !disk.saved;
      Written(if lost then p else effect.payload, !disk.released,
              if !disk.released then Err(Unreadable) else if lost then Err(SaveFailed) else Ok(effect.reply))
  }

  class ShadowEvidence {
    var store: Option<Payload> // the evidence file
    const writeLock: LockPath

    constructor (writeLock: LockPath)
      ensures this.writeLock == writeLock && store.None?
    {
      this.writeLock := writeLock;
      store := None;
    }

    /** What loading gives: the file's payload, or a new one. */
    function Current(): Payload
      reads this
    {
      if store.Some? then store.value else NEW_PAYLOAD
    }

    method FindSignature(signature: string) returns (found: bool)
      ensures found <==> signature in Signatures(Current().records)
    {
      var records := Current().records;
      for i := 0 to |records|
        invariant forall j :: 0 <= j < i ==> records[j].signature != signature
      {
        if records[i].signature == signature {
          return true;
        }
      }
      return false;
    }

    method Contains(signature: string) returns (reply: Reply)
      ensures reply == Found(signature in Signatures(Current().records))
      ensures reply == Perform(Current(), Op.Contains(signature)).reply
    {
      var found := FindSignature(signature);
      FoundExactly(Current().records, signature);
      reply := Found(found);
    }

    /** Adds a record unless its signature is known. */
    method Record(record: Record, token: Token, disk: Disk) returns (r: Result<Reply, LockError>)
      modifies this, writeLock
      ensures Written(Current(), writeLock.held, r)
              == Write(old(Current()), old(writeLock.held), RecordCandidate(record), disk)
    {
      if record.signature == "" {
        return Ok(EmptySignature);
      }
      var lock := new AttemptLock(writeLock);
      var entered := lock.Enter(token, disk.lockWritten);
      if entered.Fail? {
        return Err(entered.error);
      }
      var payload := Current();
      var duplicate := FindSignature(record.signature);
      FoundExactly(payload.records, record.signature);
      r := Ok(DuplicateCandidate);
      if !duplicate {
        r := Save(payload.(records := payload.records + [record]), disk);
      }
      var left := lock.Exit(disk.released);
      if left.Fail? {
        r := Err(left.error);
      }
    }

    /** Replaces the file, or fails and leaves it. */
    method Save(payload: Payload, disk: Disk) returns (r: Result<Reply, LockError>)
      modifies this`store
      ensures r == (if disk.saved then Ok(Done) else Err(SaveFailed))
      ensures store == (if disk.saved then Some(payload) else old(store))
    {
      if !disk.saved {
        return Err(SaveFailed);
      }
      store := Some(payload);
      r := Ok(Done);
    }

    /** Adds the time since the last heartbeat when the gap is short enough. */
    method Heartbeat(at: Instant, maximumGap: int, token: Token, disk: Disk) returns (r: Result<Reply, LockError>)
      modifies this, writeLock
      ensures Written(Current(), writeLock.held, r)
              == Write(old(Current()), old(writeLock.held), Op.Heartbeat(at, maximumGap), disk)
    {
      if !at.aware {
        return Ok(NaiveTimestamp);
      }
      if maximumGap <= 0 {
        return Ok(GapNotPositive);
      }
      var lock := new AttemptLock(writeLock);
      var entered := lock.Enter(token, disk.lockWritten);
      if entered.Fail? {
        return Err(entered.error);
      }
      var payload := Current();
      r := Ok(MovedBackwards);
      var elapsed := if payload.lastHeartbeat.Some? then at.micros - payload.lastHeartbeat.value else 0;
      if elapsed >= 0 {
        if elapsed <= maximumGap {
          payload := payload.(runtime := payload.runtime + elapsed);
        }
        r := Save(payload.(lastHeartbeat := Some(at.micros)), disk);
      }
      var left := lock.Exit(disk.released);
      if left.Fail? {
        r := Err(left.error);
      }
    }

    /** One pass over the records for each figure. */
    method Summary() returns (reply: Reply)
      ensures reply == SummaryOf(Current())
    {
      var records := Current().records;
      var started: Option<int> := None;
      var succeeded, walletNet := 0, 0;
      for i := 0 to |records|
        invariant forall j :: 0 <= j < i ==> records[j].observedAt.aware
        invariant started == Earliest(records[..i])
        invariant succeeded == Succeeded(records[..i]) && walletNet == WalletNet(records[..i])
      {
        assert records[..i + 1][..i] == records[..i];
        if !records[i].observedAt.aware {
          return NaiveTimestamp;
        }
        if started.None? || records[i].observedAt.micros < started.value {
          started := Some(records[i].observedAt.micros);
        }
        succeeded := succeeded + (if records[i].succeeded then 1 else 0);
        walletNet := walletNet + records[i].walletNet;
      }
      assert records[..|records|] == records;
      reply := Report(Evidence.Summary(started, Current().runtime, |records|, succeeded, walletNet));
    }
  }

  // ---- The trigger path of `shadow-direct`

  const DEFAULT_GAP: int := 120_000_000

  datatype TriggerError =
    | AttemptActive
    | AlreadyRecorded
    | NotConfirmed
    | SimulationFailed
    | NoWalletNet
    | EvidenceFailed(error: LockError)
    | Refused(reply: Reply)
    | LockFailed(error: LockError)

  datatype Simulation = Simulation(slot: int, succeeded: bool, walletNet: Option<int>, rejectionReasons: seq<string>)

  /** What the clock, the chain and the simulator answer during one attempt; no simulation when it raises. */
  datatype World = World(
    confirmed: bool, before: Instant, simulation: Option<Simulation>, observedAt: Instant, after: Instant)

  /** The record an attempt makes of a simulation. */
  function RecordOf(trigger: string, w: World, simulation: Simulation, walletNet: int): Record {
    Record(trigger, w.observedAt, simulation.slot, simulation.succeeded, walletNet, simulation.rejectionReasons)
  }

  /** The operations a complete attempt makes on the ledger; an attempt without a result stops after one. */
  function TriggerOps(trigger: string, w: World): (ops: seq<Op>)
    ensures |ops| == 1 || |ops| == 3
    ensures |ops| == 3 <==> w.simulation.Some? && w.simulation.value.walletNet.Some?
  {
    var first := Op.Heartbeat(w.before, DEFAULT_GAP);
    if w.simulation.None? || w.simulation.value.walletNet.None? then [first]
    else
      var record := RecordOf(trigger, w, w.simulation.value, w.simulation.value.walletNet.value);
      [first, RecordCandidate(record), Op.Heartbeat(w.after, DEFAULT_GAP)]
  }

  function PerformAll(p: Payload, ops: seq<Op>): Payload {
    if ops == [] then p else Perform(PerformAll(p, ops[..|ops| - 1]), ops[|ops| - 1]).payload
  }

  lemma PerformOneMore(p: Payload, ops: seq<Op>, n: nat)
    requires n < |ops|
    ensures PerformAll(p, ops[..n + 1]) == Perform(PerformAll(p, ops[..n]), ops[n]).payload
  {
    assert ops[..n + 1][..n] == ops[..n];
  }

  /** How far an attempt got, by its outcome. */
  predicate Reached(n: nat, r: Outcome<TriggerError>) {
    match r
    case Pass => n == 3
    case Fail(AttemptActive) | Fail(AlreadyRecorded) | Fail(NotConfirmed) => n == 0
    case Fail(SimulationFailed) | Fail(NoWalletNet) => n == 1
    case Fail(EvidenceFailed(ActiveAttempt)) => n == 0
    case Fail(Refused(_)) => n <= 2
    case Fail(EvidenceFailed(Unreadable)) | Fail(LockFailed(_)) => n <= 3
    case Fail(EvidenceFailed(_)) => n <= 2
  }

  /** The ledger is where the first `n` operations of the attempt lead. */
  predicate IsAfter(p0: Payload, trigger: string, w: World, n: nat, p: Payload) {
    n <= |TriggerOps(trigger, w)| && p == PerformAll(p0, TriggerOps(trigger, w)[..n])
  }

  lemma AfterOneMore(p0: Payload, trigger: string, w: World, n: nat, p: Payload)
    requires IsAfter(p0, trigger, w, n, p) && n < |TriggerOps(trigger, w)|
    ensures IsAfter(p0, trigger, w, n + 1, Perform(p, TriggerOps(trigger, w)[n]).payload)
  {
    PerformOneMore(p0, TriggerOps(trigger, w), n);
  }

  lemma AfterNothing(p0: Payload, trigger: string, w: World)
    ensures IsAfter(p0, trigger, w, 0, p0)
  {
  }

  /** What one write can do to an attempt: succeed, or fail on one side or the other of its effect. */
  lemma WriteEffect(p: Payload, held: bool, op: Op, disk: Disk)
    ensures var w := Write(p, held, op, disk);
            && (w.answer == Ok(Done) ==>
                  !held && !w.held && w.payload == Perform(p, op).payload && Perform(p, op).reply == Done)
            && (w.answer != Ok(Done) && w.answer != Err(Unreadable) ==> w.payload == p && w.held == held)
            && (w.payload == p || w.payload == Perform(p, op).payload)
            && (w.answer == Err(ActiveAttempt) ==> held)
            && (w.answer == Ok(DuplicateCandidate) ==>
                  op.RecordCandidate? && HasSignature(p.records, op.record.signature))
  {
    hide HasSignature;
  }

  /** A write in full, by what the lock and the disk do. */
  lemma WritesExactly(p: Payload, held: bool, op: Op, disk: Disk)
    ensures var w, effect := Write(p, held, op, disk), Perform(p, op);
            if Malformed(op).Some? then w == Written(p, held, Ok(Malformed(op).value))
            else if held then w == Written(p, true, Err(ActiveAttempt))
            else
              && (!disk.lockWritten ==> w == Written(p, false, Err(LockWriteFailed)))
              && (disk == Disk(true, true, true) ==> w == Written(effect.payload, false, Ok(effect.reply)))
              && (disk == Disk(true, false, true) ==>
                    w == if effect.reply == Done then Written(p, false, Err(SaveFailed))
                         else Written(effect.payload, false, Ok(effect.reply)))
              && (disk == Disk(true, true, false) ==> w == Written(effect.payload, true, Err(Unreadable)))
              && (disk == Disk(true, false, false) ==>
                    w == Written(if effect.reply == Done then p else effect.payload, true, Err(Unreadable)))
  {
    hide HasSignature, SummaryOf;
  }

  lemma OnlyRecordAdds(p: Payload, op: Op)
    requires Perform(p, op).reply == Done
    ensures Perform(p, op).payload.records == if op.RecordCandidate? then p.records + [op.record] else p.records
  {
  }

  /** What a write's answer makes of the attempt: nothing when it is done. */
  function Failure(answer: Result<Reply, LockError>): Option<TriggerError> {
    if answer.Err? then Some(EvidenceFailed(answer.error))
    else if answer.value != Done then Some(Refused(answer.value))
    else None
  }

  /** What an attempt leaves: the ledger, whether its lock file is still there, and the outcome. */
  datatype Attempted = Attempted(payload: Payload, held: bool, outcome: Outcome<TriggerError>)

  function Then(w: Written, more: Attempted): Attempted {
    if Failure(w.answer).Some? then Attempted(w.payload, w.held, Fail(Failure(w.answer).value)) else more
  }

  /** An attempt without interference: the lookup, the confirmation, then write after write until one fails. */
  function AttemptResult(p: Payload, held: bool, trigger: string, w: World, disks: seq<Disk>): Attempted
    requires |disks| == 3
  {
    var ops := TriggerOps(trigger, w);
    if HasSignature(p.records, trigger) then Attempted(p, held, Fail(AlreadyRecorded))
    else if !w.confirmed then Attempted(p, held, Fail(NotConfirmed))
    else
      var one := Write(p, held, ops[0], disks[0]);
      if w.simulation.None? then Then(one, Attempted(one.payload, one.held, Fail(SimulationFailed)))
      else if w.simulation.value.walletNet.None? then Then(one, Attempted(one.payload, one.held, Fail(NoWalletNet)))
      else
        var two := Write(one.payload, one.held, ops[1], disks[1]);
        var three := Write(two.payload, two.held, ops[2], disks[2]);
        Then(one, Then(two, Then(three, Attempted(three.payload, three.held, Pass))))
  }

  /** Nothing in the way: free lock, working disks, and clocks with timezones that do not run backwards. */
  predicate GoodDay(p: Payload, held: bool, w: World, disks: seq<Disk>) {
    && !held && disks == [Disk(true, true, true), Disk(true, true, true), Disk(true, true, true)]
    && w.before.aware && w.after.aware && w.before.micros <= w.after.micros
    && (p.lastHeartbeat.Some? ==> p.lastHeartbeat.value <= w.before.micros)
  }

  /** The time two heartbeats of one attempt add to a ledger, with a limit of two minutes. */
  function Counted(p: Payload, w: World): int {
    (if p.lastHeartbeat.Some? && w.before.micros - p.lastHeartbeat.value <= 120_000_000
     then w.before.micros - p.lastHeartbeat.value else 0)
    + (if w.after.micros - w.before.micros <= 120_000_000 then w.after.micros - w.before.micros else 0)
  }

  /**
   When an attempt is refused without a write, and what it comes to on a good day: the record is made of the
   simulation's own figures, and the time between the heartbeats counts.
   */
  lemma AttemptsExactly(p: Payload, held: bool, trigger: string, w: World, disks: seq<Disk>)
    requires |disks| == 3
    ensures var known, result := trigger in Signatures(p.records), AttemptResult(p, held, trigger, w, disks);
            && (result.outcome == Fail(AlreadyRecorded) <==> known)
            && (result.outcome == Fail(NotConfirmed) <==> !known && !w.confirmed)
            && (known || !w.confirmed ==> result.payload == p && result.held == held)
    ensures GoodDay(p, held, w, disks) && trigger !in Signatures(p.records) && w.confirmed ==>
              var result := AttemptResult(p, held, trigger, w, disks);
              && !result.held
              && (w.simulation.None? ==> result.outcome == Fail(SimulationFailed))
              && (w.simulation.Some? ==>
                    var sim := w.simulation.value;
                    && (sim.walletNet.None? ==> result.outcome == Fail(NoWalletNet))
                    && (sim.walletNet.Some? && trigger == "" ==> result.outcome == Fail(Refused(EmptySignature)))
                    && (sim.walletNet.Some? && trigger != "" ==>
                          && result.outcome == Pass
                          && result.payload.lastHeartbeat == Some(w.after.micros)
                          && result.payload.runtime == p.runtime + Counted(p, w)
                          && result.payload.records
                             == p.records + [Record(trigger, w.observedAt, sim.slot, sim.succeeded, sim.walletNet.value,
                                                    sim.rejectionReasons)]))
  {
    hide HasSignature, Signatures, Write, Perform;
    FoundExactly(p.records, trigger);
    var ops := TriggerOps(trigger, w);
    var one := Write(p, held, ops[0], disks[0]);
    WritesExactly(p, held, ops[0], disks[0]);
    HeartbeatsExactly(p, w.before, 120_000_000);
    FailureIsNotEarly(one.answer);
    if w.simulation.Some? && w.simulation.value.walletNet.Some? {
      var two := Write(one.payload, one.held, ops[1], disks[1]);
      var three := Write(two.payload, two.held, ops[2], disks[2]);
      WritesExactly(one.payload, one.held, ops[1], disks[1]);
      WritesExactly(two.payload, two.held, ops[2], disks[2]);
      CandidateStep(one.payload, ops[1].record);
      HeartbeatsExactly(two.payload, w.after, 120_000_000);
      FailureIsNotEarly(two.answer);
      FailureIsNotEarly(three.answer);
    }
  }

  lemma FailureIsNotEarly(answer: Result<Reply, LockError>)
    ensures Failure(answer) != Some(AlreadyRecorded) && Failure(answer) != Some(NotConfirmed)
    ensures Failure(answer).None? <==> answer == Ok(Done)
  {
  }

  /**
   One attempt's ledger work. A complete attempt is its three operations; a failed one is a prefix of
   them; and after the first look found no record, the later one never turns out to be a duplicate.
   */
  method Attempt(evidence: ShadowEvidence, trigger: string, w: World, tokens: seq<Token>, disks: seq<Disk>)
    returns (r: Outcome<TriggerError>)
    requires |tokens| == 3 && |disks| == 3
    modifies evidence, evidence.writeLock
    ensures Attempted(evidence.Current(), evidence.writeLock.held, r)
            == AttemptResult(old(evidence.Current()), old(evidence.writeLock.held), trigger, w, disks)
    ensures evidence.writeLock.held == old(evidence.writeLock.held) || r == Fail(EvidenceFailed(Unreadable))
    ensures r == Fail(AlreadyRecorded) <==> trigger in Signatures(old(evidence.Current()).records)
    ensures r != Fail(Refused(DuplicateCandidate)) && r != Fail(AttemptActive) && !(r.Fail? && r.error.LockFailed?)
    ensures exists n :: Reached(n, r) && IsAfter(old(evidence.Current()), trigger, w, n, evidence.Current())
  {
    hide IsAfter, PerformAll, Perform, Write, HasSignature, Signatures;
    ghost var p0, held0, ops := evidence.Current(), evidence.writeLock.held, TriggerOps(trigger, w);
    AttemptIsAPrefix(p0, held0, trigger, w, disks);
    AttemptsExactly(p0, held0, trigger, w, disks);
    FoundExactly(p0.records, trigger);
    var known := evidence.FindSignature(trigger);
    if known {
      return Fail(AlreadyRecorded);
    }
    if !w.confirmed {
      return Fail(NotConfirmed);
    }
    var beat := evidence.Heartbeat(w.before, DEFAULT_GAP, tokens[0], disks[0]);
    if Failure(beat).Some? {
      return Fail(Failure(beat).value);
    }
    if w.simulation.None? {
      return Fail(SimulationFailed);
    }
    var simulation := w.simulation.value;
    if simulation.walletNet.None? {
      return Fail(NoWalletNet);
    }
    var record := RecordOf(trigger, w, simulation, simulation.walletNet.value);
    var recorded := evidence.Record(record, tokens[1], disks[1]);
    if Failure(recorded).Some? {
      return Fail(Failure(recorded).value);
    }
    beat := evidence.Heartbeat(w.after, DEFAULT_GAP, tokens[2], disks[2]);
    if Failure(beat).Some? {
      return Fail(Failure(beat).value);
    }
    r := Pass;
  }

  /** Whatever fails, the ledger is a prefix of the attempt's operations on, and never for a duplicate. */
  lemma AttemptIsAPrefix(p: Payload, held: bool, trigger: string, w: World, disks: seq<Disk>)
    requires |disks| == 3
    ensures var result := AttemptResult(p, held, trigger, w, disks);
            && (exists n :: Reached(n, result.outcome) && IsAfter(p, trigger, w, n, result.payload))
            && (result.held == held || result.outcome == Fail(EvidenceFailed(Unreadable)))
            && result.outcome != Fail(Refused(DuplicateCandidate)) && result.outcome != Fail(AttemptActive)
            && !(result.outcome.Fail? && result.outcome.error.LockFailed?)
  {
    hide IsAfter, PerformAll, Perform, Write, HasSignature;
    var ops, result := TriggerOps(trigger, w), AttemptResult(p, held, trigger, w, disks);
    AfterNothing(p, trigger, w);
    if result.outcome == Fail(AlreadyRecorded) || result.outcome == Fail(NotConfirmed) {
      return;
    }
    var one := Write(p, held, ops[0], disks[0]);
    AfterOneMore(p, trigger, w, 0, p);
    WriteEffect(p, held, ops[0], disks[0]);
    if one.answer == Ok(Done) {
      OnlyRecordAdds(p, ops[0]);
      if |ops| == 3 {
        var two := Write(one.payload, one.held, ops[1], disks[1]);
        AfterOneMore(p, trigger, w, 1, one.payload);
        WriteEffect(one.payload, one.held, ops[1], disks[1]);
        if two.answer == Ok(Done) {
          var three := Write(two.payload, two.held, ops[2], disks[2]);
          AfterOneMore(p, trigger, w, 2, two.payload);
          WriteEffect(two.payload, two.held, ops[2], disks[2]);
        }
      }
    }
  }

  /**
   The attempt under its own lock, which ends as it began unless it cannot be released. Whatever happens,
   the ledger ends at a prefix of the attempt's operations.
   */
  method ShadowDirect(evidence: ShadowEvidence, attempt: LockPath, trigger: string, w: World,
                      tokens: seq<Token>, disks: seq<Disk>)
    returns (r: Outcome<TriggerError>)
    requires |tokens| == 4 && |disks| == 4 && attempt != evidence.writeLock
    modifies evidence, evidence.writeLock, attempt
    ensures r == Fail(AttemptActive) <==> old(attempt.held)
    ensures attempt.held == (old(attempt.held) || r == Fail(LockFailed(Unreadable)))
    ensures exists n :: IsAfter(old(evidence.Current()), trigger, w, n, evidence.Current())
                        && (Reached(n, r) || r == Fail(LockFailed(Unreadable)))
  {
    hide IsAfter, Perform, HasSignature;
    AfterNothing(evidence.Current(), trigger, w);
    var lock := new AttemptLock(attempt);
    var entered := lock.Enter(tokens[0], disks[0].lockWritten);
    if entered.Fail? {
      r := Fail(if entered.error == ActiveAttempt then AttemptActive else LockFailed(entered.error));
      assert Reached(0, r);
      return;
    }
    ghost var p0 := evidence.Current();
    r := Attempt(evidence, trigger, w, tokens[1..], disks[1..]);
    ghost var n :| Reached(n, r) && IsAfter(p0, trigger, w, n, evidence.Current());
    var left := lock.Exit(disks[0].released);
    if left.Fail? {
      r := Fail(LockFailed(left.error));
    }
    assert IsAfter(p0, trigger, w, n, evidence.Current());
  }
}
