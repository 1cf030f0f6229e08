/**
 The trigger path of `shadow-direct` (backrunner/cli.py) on top of module `Protocol`: processes that make
 an attempt hold a second lock file while they look their trigger up, heartbeat, record it and heartbeat
 again, each of these an operation of the evidence protocol, interleaved with every other process's steps.
 The attempt lock goes through the same steps as the evidence lock: exclusive create, owner token, and a
 release that reads, compares and unlinks; any of them may fail.
 */
module Attempts {
  import opened Wrappers
  import opened Evidence
  import opened Protocol

  /** The operation an attempt is at, or was last at. */
  datatype Phase = Entered | Looking | Counting | Recording | Finishing

  /** Where an attempt is with its lock file. */
  datatype Stage = Stamping | Working | Closing | Comparing(seen: Token) | Removing

  datatype Attempt = Attempt(trigger: string, token: Token, phase: Phase, stage: Stage)

  datatype System = System(core: State, file: Option<LockFile>, attempts: map<Pid, Attempt>)

  const START: System := System(INITIAL, None, map[])

  datatype Move =
    | Begin(trigger: string, token: Token)  // create the attempt lock
    | Stamp                                 // write its owner token
    | StampFailed                           // fail to, and remove it again
    | StampLeft                             // fail to remove it as well
    | Advance(op: Op)                       // call the attempt's next operation
    | Inner(action: Action)                 // a step of an operation under way
    | Side(op: Op)                          // outside any attempt: a lookup, a heartbeat or a summary
    | Close                                 // leave the attempt, done or failed
    | ReadToken
    | Compare
    | Remove
    | CloseFails                            // fail to read or remove the lock

  predicate Between(s: State, p: Pid) {
    p in s.procs ==> s.procs[p].pc.Returned?
  }

  /** The phase `op` opens, given what the operation before it answered. */
  function Following(s: System, p: Pid, op: Op): Option<Phase>
    requires p in s.attempts
  {
    var trigger, phase := s.attempts[p].trigger, s.attempts[p].phase;
    var answer := if p in s.core.procs && s.core.procs[p].pc.Returned? then Some(s.core.procs[p].pc.answer) else None;
    if phase == Entered && op == Contains(trigger) then Some(Looking)
    else if phase == Looking && answer == Some(Ok(Found(false))) && op.Heartbeat? then Some(Counting)
    else if phase == Counting && answer == Some(Ok(Done)) && op.RecordCandidate? && op.record.signature == trigger
    then Some(Recording)
    else if phase == Recording && answer == Some(Ok(Done)) && op.Heartbeat? then Some(Finishing)
    else None
  }

  function CoreMove(s: System, p: Pid, a: Action, attempts: map<Pid, Attempt>): Option<System> {
    var core := Next(s.core, p, a);
    if core.None? then None else Some(System(core.value, s.file, attempts))
  }

  function ToStage(s: System, p: Pid, stage: Stage): System
    requires p in s.attempts
  {
    s.(attempts := s.attempts[p := s.attempts[p].(stage := stage)])
  }

  /** The attempt is over, and its lock file is as given. */
  function Over(s: System, p: Pid, file: Option<LockFile>): System {
    System(s.core, file, s.attempts - {p})
  }

  /** The lock file left to itself. */
  function Orphan(file: Option<LockFile>): Option<LockFile> {
    if file.Some? then Some(file.value.(owner := None)) else None
  }

  /** A step of the attempt's own lock. */
  function LockTurn(s: System, p: Pid, m: Move): Option<System>
    requires p in s.attempts
  {
    var at := s.attempts[p];
    match m
    case Stamp =>
      if !at.stage.Stamping? then None
      else
        var mine := Some(LockFile(Some(at.token), Some(p)));
        Some(ToStage(s, p, Working).(file := if s.file.Some? && s.file.value.owner == Some(p) then mine else s.file))
    case StampFailed => if at.stage.Stamping? then Some(Over(s, p, None)) else None
    case StampLeft => if at.stage.Stamping? then Some(Over(s, p, Orphan(s.file))) else None
    case Close => if at.stage.Working? && Between(s.core, p) then Some(ToStage(s, p, Closing)) else None
    case ReadToken =>
      if !at.stage.Closing? then None
      else if s.file.None? || s.file.value.token.None? then Some(Over(s, p, s.file))
      else Some(ToStage(s, p, Comparing(s.file.value.token.value)))
    case Compare =>
      if !at.stage.Comparing? then None
      else if at.stage.seen != at.token then Some(Over(s, p, s.file))
      else Some(ToStage(s, p, Stage.Removing))
    case Remove => if at.stage.Removing? then Some(Over(s, p, None)) else None
    case CloseFails =>
      if at.stage.Closing? || at.stage.Comparing? || at.stage.Removing? then Some(Over(s, p, Orphan(s.file))) else None
    case _ => None
  }

  function Turn(s: System, p: Pid, m: Move): Option<System> {
    if p in s.core.crashed then None
    else
      match m
      case Begin(trigger, token) =>
        if s.file.Some? || p in s.attempts || !Between(s.core, p) then None
        else
          var attempt := Attempt(trigger, token, Entered, Stamping);
          Some(System(s.core, Some(LockFile(None, Some(p))), s.attempts[p := attempt]))
      case Advance(op) =>
        if p !in s.attempts || !s.attempts[p].stage.Working? || Following(s, p, op).None? then None
        else CoreMove(s, p, Invoke(op), s.attempts[p := s.attempts[p].(phase := Following(s, p, op).value)])
      case Inner(action) => if action.Invoke? then None else CoreMove(s, p, action, s.attempts)
      case Side(op) =>
        if p in s.attempts || op.RecordCandidate? then None else CoreMove(s, p, Invoke(op), s.attempts)
      case _ => if p in s.attempts then LockTurn(s, p, m) else None
  }

  datatype Play = Play(pid: Pid, move: Move)

  function RunAll(s: System, plays: seq<Play>): System
    decreases |plays|
  {
    if plays == [] then s
    else
      var before := RunAll(s, plays[..|plays| - 1]);
      var after := Turn(before, plays[|plays| - 1].pid, plays[|plays| - 1].move);
      if after.Some? then after.value else before
  }

  // ---- The invariant

  predicate Absent(log: seq<Protocol.Event>, trigger: string) {
    !HasSignature(Truth(log).records, trigger)
  }

  /** The operation a phase runs. */
  predicate Serves(at: Attempt, op: Op) {
    match at.phase
    case Entered => true
    case Looking => op == Contains(at.trigger)
    case Counting | Finishing => op.Heartbeat?
    case Recording => op.RecordCandidate? && op.record.signature == at.trigger
  }

  /** From the lookup that found nothing to the record that takes effect, the trigger must stay absent. */
  predicate BetweenLookAndRecord(s: State, me: Proc, at: Attempt) {
    || (at.phase == Looking && me.event.Some?
        && me.event.value < |s.log| && s.log[me.event.value].reply == Found(false))
    || at.phase == Counting
    || (at.phase == Recording && me.event.None? && !me.pc.Returned?)
  }

  predicate NotDuplicate(s: State, me: Proc) {
    me.event.Some? && me.event.value < |s.log| ==> s.log[me.event.value].reply != DuplicateCandidate
  }

  ghost predicate AttemptOk(s: State, p: Pid, at: Attempt) {
    at.phase != Entered ==>
      && p in s.procs && Serves(at, s.procs[p].op)
      && (BetweenLookAndRecord(s, s.procs[p], at) ==> Absent(s.log, at.trigger))
      && (at.phase == Recording ==> NotDuplicate(s, s.procs[p]))
  }

  /** A record that may still take effect. */
  predicate Pending(me: Proc) {
    me.op.RecordCandidate? && !me.pc.Returned?
  }

  /** Records are made only in attempts. */
  predicate PendingOk(s: State, attempts: map<Pid, Attempt>) {
    forall p :: p in s.procs && Pending(s.procs[p]) ==> p in attempts && attempts[p].phase == Recording
  }

  /** An attempt owns the lock file, which carries its token once written; outside its work it makes no call. */
  predicate Owns(s: State, file: Option<LockFile>, p: Pid, at: Attempt) {
    && file == Some(LockFile(if at.stage.Stamping? then None else Some(at.token), Some(p)))
    && (at.stage.Comparing? ==> at.stage.seen == at.token)
    && (!at.stage.Working? ==> Between(s, p))
  }

  /** Every attempt owns the lock file, and a file with an owner is that of its attempt. */
  predicate OneAttempt(s: State, file: Option<LockFile>, attempts: map<Pid, Attempt>) {
    && (forall p :: p in attempts ==> Owns(s, file, p, attempts[p]))
    && (file.Some? && file.value.owner.Some? ==> file.value.owner.value in attempts)
  }

  ghost predicate AttemptsOk(s: State, attempts: map<Pid, Attempt>) {
    forall p :: p in attempts ==> AttemptOk(s, p, attempts[p])
  }

  ghost predicate SystemInv(s: System) {
    && Inv(s.core)
    && OneAttempt(s.core, s.file, s.attempts)
    && AttemptsOk(s.core, s.attempts)
    && PendingOk(s.core, s.attempts)
  }

  // ---- What one step of the evidence protocol does to the order

  /** The step logs at most one event, of the process's own operation as the ledger answers it. */
  ghost predicate LogsOwn(s: State, t: State, p: Pid) {
    && OnlyMoves(s, t, p)
    && var me := t.procs[p];
    || (t.log == s.log && (me.event.None? || (p in s.procs && me.event == s.procs[p].event)))
    || (|t.log| == |s.log| + 1 && t.log[..|s.log|] == s.log && me.event == Some(|s.log|)
        && t.log[|s.log|] == Protocol.Event(p, me.op, Perform(Truth(s.log), me.op).reply))
  }

  lemma StepLogsOwn(s: State, p: Pid, a: Action)
    requires Inv(s) && Next(s, p, a).Some? && !a.Crash?
    ensures LogsOwn(s, Next(s, p, a).value, p) && Inv(Next(s, p, a).value)
  {
    var t := Next(s, p, a).value;
    StepKeepsInv(s, p, a);
    StepShape(s, p, a);
    hide Next;
    if |t.log| > |s.log| {
      Unpack(t, p);
      LegalAt(t.log, |s.log|);
    }
  }

  /** The same, but for the reply, which the step takes from what it read. */
  lemma StepShape(s: State, p: Pid, a: Action)
    requires Next(s, p, a).Some? && !a.Crash?
    ensures var t := Next(s, p, a).value;
            && OnlyMoves(s, t, p)
            && var me := t.procs[p];
            || (t.log == s.log && (me.event.None? || (p in s.procs && me.event == s.procs[p].event)))
            || (|t.log| == |s.log| + 1 && t.log[..|s.log|] == s.log && me.event == Some(|s.log|)
                && t.log[|s.log|].pid == p && t.log[|s.log|].op == me.op)
    ensures var t := Next(s, p, a).value;
            !a.Invoke? ==>
              p in s.procs && !s.procs[p].pc.Returned? && (t.log == s.log ==> t.procs[p].event == s.procs[p].event)
  {
    hide Perform, Malformed;
  }

  /** An operation under way keeps its op, was not done, and takes effect only once. */
  lemma InnerStep(s: State, p: Pid, a: Action)
    requires Inv(s) && Next(s, p, a).Some? && !a.Crash? && !a.Invoke?
    ensures var t := Next(s, p, a).value;
            && p in s.procs && !s.procs[p].pc.Returned? && t.procs[p].op == s.procs[p].op
            && (if t.log == s.log then t.procs[p].event == s.procs[p].event else s.procs[p].event.None?)
  {
    var t := Next(s, p, a).value;
    StepLogsOwn(s, p, a);
    StepShape(s, p, a);
    StepKeepsCall(s, p, a, p);
    hide Next;
    Unpack(s, p);
    Unpack(t, p);
    hide Inv, Truth, Perform, Legal, StoreIs;
  }

  lemma OnlyItsRecordEndsAbsence(log: seq<Protocol.Event>, e: Protocol.Event, trigger: string)
    requires Absent(log, trigger)
    requires e.op.RecordCandidate? ==> Malformed(e.op).Some?
    ensures Absent(log + [e], trigger)
  {
    TruthSnoc(log, e);
    hide Truth;
  }

  lemma AbsenceDecides(p: Payload, op: Op)
    ensures op.Contains? ==> Perform(p, op).reply == Found(HasSignature(p.records, op.signature))
    ensures op.RecordCandidate? && !HasSignature(p.records, op.record.signature) ==>
              Perform(p, op).reply != DuplicateCandidate
    ensures Malformed(op).Some? ==> Perform(p, op).reply != DuplicateCandidate && !op.Contains?
  {
  }

  lemma EventIsPast(s: State, q: Pid)
    requires Inv(s)
    ensures q in s.procs && s.procs[q].event.Some? ==> s.procs[q].event.value < |s.log|
  {
    hide Truth, Legal, StoreIs, Perform;
    assert q in s.procs ==> ProcOk(s, q);
  }

  /** A step that logs no record of its own leaves every other process's attempt as it was. */
  lemma OtherAttemptOk(s: State, t: State, p: Pid, q: Pid, at: Attempt)
    requires LogsOwn(s, t, p) && q != p && AttemptOk(s, q, at)
    requires t.log == s.log || !t.procs[p].op.RecordCandidate?
    requires q in s.procs && s.procs[q].event.Some? ==> s.procs[q].event.value < |s.log|
    ensures AttemptOk(t, q, at)
  {
    hide Truth, Perform, Absent;
    if t.log != s.log {
      assert t.log == s.log + [t.log[|s.log|]];
      if Absent(s.log, at.trigger) {
        OnlyItsRecordEndsAbsence(s.log, t.log[|s.log|], at.trigger);
      }
    }
  }

  /** The attempt's own step: a lookup that finds nothing, a heartbeat, or the record that takes effect. */
  lemma OwnAttemptOk(s: State, t: State, p: Pid, at: Attempt)
    requires LogsOwn(s, t, p) && p in s.procs && AttemptOk(s, p, at)
    requires t.procs[p].op == s.procs[p].op && !s.procs[p].pc.Returned?
    requires if t.log == s.log then t.procs[p].event == s.procs[p].event else s.procs[p].event.None?
    ensures AttemptOk(t, p, at)
  {
    hide Truth, Perform, Absent;
    AbsenceDecides(Truth(s.log), t.procs[p].op);
    AbsentMeans(s.log, at.trigger);
    if t.log != s.log {
      assert t.log == s.log + [t.log[|s.log|]];
      if Absent(s.log, at.trigger) && at.phase != Recording && at.phase != Entered {
        OnlyItsRecordEndsAbsence(s.log, t.log[|s.log|], at.trigger);
      }
    }
  }

  lemma AbsentMeans(log: seq<Protocol.Event>, trigger: string)
    ensures Absent(log, trigger) <==> !HasSignature(Truth(log).records, trigger)
  {
  }

  /** The next operation of an attempt, called. */
  lemma NextPhaseOk(s: State, t: State, p: Pid, at: Attempt, next: Attempt)
    requires LogsOwn(s, t, p) && AttemptOk(s, p, at) && next.trigger == at.trigger
    requires p in s.procs ==> ProcOk(s, p) && s.procs[p].pc.Returned?
    requires Serves(next, t.procs[p].op) && next.phase != Entered
    requires t.log != s.log ==> Malformed(t.procs[p].op).Some?
    requires t.log == s.log ==> t.procs[p].event.None?
    requires next.phase == Counting ==>
               at.phase == Looking && p in s.procs && s.procs[p].pc.answer == Ok(Found(false))
    requires next.phase == Recording ==> at.phase == Counting
    ensures AttemptOk(t, p, next)
  {
    hide Truth, Perform, Absent, Malformed, Once;
    AbsenceDecides(Truth(s.log), t.procs[p].op);
    if t.log != s.log {
      assert t.log == s.log + [t.log[|s.log|]];
      if Absent(s.log, at.trigger) {
        OnlyItsRecordEndsAbsence(s.log, t.log[|s.log|], at.trigger);
      }
    }
  }

  // ---- Every run

  lemma InvokedShape(s: State, p: Pid, op: Op)
    requires Next(s, p, Invoke(op)).Some?
    ensures var t := Next(s, p, Invoke(op)).value;
            && Between(s, p) && p in t.procs && t.procs[p].op == op
            && (t.log != s.log ==> Malformed(op).Some? && t.procs[p].pc.Returned?)
            && (t.log == s.log ==> t.procs[p].event.None?)
  {
  }

  lemma PendingKept(s: State, t: State, p: Pid, before: map<Pid, Attempt>, after: map<Pid, Attempt>)
    requires PendingOk(s, before) && OnlyMoves(s, t, p)
    requires Pending(t.procs[p]) ==> p in after && after[p].phase == Recording
    requires forall q :: q in before && q != p ==> q in after && after[q] == before[q]
    ensures PendingOk(t, after)
  {
  }

  lemma OwnsKept(s: System, t: State, p: Pid)
    requires SystemInv(s) && OnlyMoves(s.core, t, p)
    requires p in s.attempts ==> s.attempts[p].stage.Working?
    ensures OneAttempt(t, s.file, s.attempts)
  {
    hide Inv, AttemptOk, PendingOk;
  }

  /** The other attempts, and there is none but the holder's, are as before a step that records nothing for them. */
  lemma OthersKept(s: System, t: State, p: Pid)
    requires SystemInv(s) && LogsOwn(s.core, t, p) && (t.log == s.core.log || !t.procs[p].op.RecordCandidate?)
    ensures forall q :: q in s.attempts && q != p ==> AttemptOk(t, q, s.attempts[q])
  {
    hide Inv, AttemptOk, LogsOwn, PendingOk;
    forall q | q in s.attempts && q != p
      ensures AttemptOk(t, q, s.attempts[q])
    {
      EventIsPast(s.core, q);
      OtherAttemptOk(s.core, t, p, q, s.attempts[q]);
    }
  }

  lemma InnerKeepsInv(s: System, p: Pid, a: Action)
    requires SystemInv(s) && Turn(s, p, Inner(a)).Some?
    ensures SystemInv(Turn(s, p, Inner(a)).value)
  {
    hide Next, Inv, AttemptOk, Pending, OneAttempt;
    var t := Next(s.core, p, a).value;
    if a.Crash? {
      StepKeepsInv(s.core, p, a);
      CrashMovesNothing(s.core, p);
      CrashedSystem(s, t);
    } else {
      StepLogsOwn(s.core, p, a);
      InnerStep(s.core, p, a);
      PendingBefore(s.core, t, p);
      PendingKept(s.core, t, p, s.attempts, s.attempts);
      UnderWayIsWorking(s, p);
      OwnsKept(s, t, p);
      hide LogsOwn, PendingOk;
      if p in s.attempts {
        OwnAttemptOk(s.core, t, p, s.attempts[p]);
        OnlyAttempt(s, p);
      } else {
        OthersKept(s, t, p);
      }
    }
  }

  lemma UnderWayIsWorking(s: System, p: Pid)
    requires SystemInv(s) && p in s.core.procs && !s.core.procs[p].pc.Returned?
    ensures p in s.attempts ==> s.attempts[p].stage.Working?
  {
    hide Inv, AttemptOk, PendingOk;
    assert p in s.attempts ==> Owns(s.core, s.file, p, s.attempts[p]);
  }

  lemma OnlyAttempt(s: System, p: Pid)
    requires SystemInv(s) && p in s.attempts
    ensures Owns(s.core, s.file, p, s.attempts[p])
    ensures forall q :: q in s.attempts ==> q == p
  {
    hide Inv, AttemptOk, PendingOk;
    forall q | q in s.attempts
      ensures q == p
    {
      assert Owns(s.core, s.file, q, s.attempts[q]) && Owns(s.core, s.file, p, s.attempts[p]);
    }
  }

  lemma PendingBefore(s: State, t: State, p: Pid)
    requires p in s.procs && p in t.procs && !s.procs[p].pc.Returned? && t.procs[p].op == s.procs[p].op
    ensures Pending(t.procs[p]) ==> Pending(s.procs[p])
    ensures t.procs[p].op.RecordCandidate? ==> Pending(s.procs[p])
  {
  }

  lemma CrashMovesNothing(s: State, p: Pid)
    requires Next(s, p, Crash).Some?
    ensures Next(s, p, Crash).value.procs == s.procs && Next(s, p, Crash).value.log == s.log
  {
  }

  lemma CrashedSystem(s: System, t: State)
    requires SystemInv(s) && Inv(t) && t.procs == s.core.procs && t.log == s.core.log
    ensures SystemInv(System(t, s.file, s.attempts))
  {
    hide Inv, Truth;
  }

  lemma SideKeepsInv(s: System, p: Pid, op: Op)
    requires SystemInv(s) && Turn(s, p, Side(op)).Some?
    ensures SystemInv(Turn(s, p, Side(op)).value)
  {
    hide Next, Inv, AttemptOk, Malformed, OneAttempt;
    var t := Next(s.core, p, Invoke(op)).value;
    StepLogsOwn(s.core, p, Invoke(op));
    InvokedShape(s.core, p, op);
    PendingKept(s.core, t, p, s.attempts, s.attempts);
    OwnsKept(s, t, p);
    hide LogsOwn, PendingOk;
    OthersKept(s, t, p);
  }

  lemma FollowingMeans(s: System, p: Pid, op: Op)
    requires p in s.attempts && Following(s, p, op).Some?
    ensures var at := s.attempts[p];
            var next := at.(phase := Following(s, p, op).value);
            && Serves(next, op) && next.phase != Entered
            && (next.phase == Counting ==>
                  at.phase == Looking && p in s.core.procs && s.core.procs[p].pc.Returned?
                  && s.core.procs[p].pc.answer == Ok(Found(false)))
            && (next.phase == Recording ==> at.phase == Counting)
  {
  }

  lemma AdvancedAttemptOk(s: System, p: Pid, op: Op)
    requires SystemInv(s) && Turn(s, p, Advance(op)).Some?
    ensures var t := Turn(s, p, Advance(op)).value;
            AttemptOk(t.core, p, t.attempts[p]) && LogsOwn(s.core, t.core, p) && Inv(t.core)
  {
    hide AttemptOk, Malformed, ProcOk, Inv, Next, LogsOwn, PendingOk, Following, Serves, OneAttempt;
    var t, at := Next(s.core, p, Invoke(op)).value, s.attempts[p];
    FollowingMeans(s, p, op);
    StepLogsOwn(s.core, p, Invoke(op));
    InvokedShape(s.core, p, op);
    if p in s.core.procs {
      Unpack(s.core, p);
    }
    NextPhaseOk(s.core, t, p, at, at.(phase := Following(s, p, op).value));
  }

  lemma AdvanceKeepsInv(s: System, p: Pid, op: Op)
    requires SystemInv(s) && Turn(s, p, Advance(op)).Some?
    ensures SystemInv(Turn(s, p, Advance(op)).value)
  {
    hide Next, Inv, AttemptOk, Malformed;
    var t := Turn(s, p, Advance(op)).value;
    AdvancedAttemptOk(s, p, op);
    InvokedShape(s.core, p, op);
    OnlyAttempt(s, p);
    PendingKept(s.core, t.core, p, s.attempts, t.attempts);
    hide LogsOwn, PendingOk;
  }

  /** Only the trigger and the phase matter to what an attempt may rely on. */
  lemma OtherStageOk(s: State, p: Pid, a: Attempt, b: Attempt)
    requires AttemptOk(s, p, a) && a.trigger == b.trigger && a.phase == b.phase
    ensures AttemptOk(s, p, b)
  {
    hide Absent;
  }

  lemma EnteredIsOk(s: State, p: Pid, at: Attempt)
    requires at.phase == Entered
    ensures AttemptOk(s, p, at)
  {
  }

  lemma BeginKeepsInv(s: System, p: Pid, trigger: string, token: Token)
    requires SystemInv(s) && Turn(s, p, Begin(trigger, token)).Some?
    ensures SystemInv(Turn(s, p, Begin(trigger, token)).value)
  {
    hide Inv, AttemptOk;
    assert s.attempts == map[] by {
      hide PendingOk;
      if q :| q in s.attempts {
        OnlyAttempt(s, q);
      }
    }
    EnteredIsOk(s.core, p, Attempt(trigger, token, Entered, Stamping));
  }

  /** A step of the attempt lock: the owner's own file is stamped, read or removed, or left to nobody. */
  lemma LockTurnKeepsInv(s: System, p: Pid, m: Move)
    requires SystemInv(s) && p in s.attempts && LockTurn(s, p, m).Some?
    ensures SystemInv(LockTurn(s, p, m).value)
  {
    hide Inv, AttemptOk, Pending;
    OnlyAttempt(s, p);
    var t := LockTurn(s, p, m).value;
    if p in t.attempts {
      OtherStageOk(s.core, p, s.attempts[p], t.attempts[p]);
    } else {
      BetweenIsNotPending(s.core, p);
    }
  }

  lemma BetweenIsNotPending(s: State, p: Pid)
    requires Between(s, p)
    ensures p in s.procs ==> !Pending(s.procs[p])
  {
  }

  lemma TurnKeepsInv(s: System, p: Pid, m: Move)
    requires SystemInv(s) && Turn(s, p, m).Some?
    ensures SystemInv(Turn(s, p, m).value)
  {
    hide Next, SystemInv, LockTurn;
    match m
    case Inner(a) => InnerKeepsInv(s, p, a);
    case Side(op) => SideKeepsInv(s, p, op);
    case Advance(op) => AdvanceKeepsInv(s, p, op);
    case Begin(trigger, token) => BeginKeepsInv(s, p, trigger, token);
    case _ => LockTurnKeepsInv(s, p, m);
  }

  lemma {:induction false} RunAllKeepsInv(plays: seq<Play>)
    ensures SystemInv(RunAll(START, plays))
    decreases |plays|
  {
    if plays == [] {
      RunKeepsInv([]);
    } else {
      var init, play := plays[..|plays| - 1], plays[|plays| - 1];
      RunAllKeepsInv(init);
      hide Turn, SystemInv;
      if Turn(RunAll(START, init), play.pid, play.move).Some? {
        TurnKeepsInv(RunAll(START, init), play.pid, play.move);
      }
    }
  }

  /**
   Over every interleaving, with processes stopping and disks failing anywhere: an attempt owns the attempt
   lock and is the only one; while it is between a lookup that found nothing and its record, the trigger stays
   absent; and so its record is never refused as a duplicate.
   */
  lemma FoundAbsentIsNeverADuplicate(plays: seq<Play>, p: Pid)
    requires p in RunAll(START, plays).attempts
    ensures var s := RunAll(START, plays);
            var at := s.attempts[p];
            && s.file.Some? && s.file.value.owner == Some(p) && (forall q :: q in s.attempts ==> q == p)
            && (at.phase == Counting ==> Absent(s.core.log, at.trigger))
            && (at.phase == Recording && p in s.core.procs && s.core.procs[p].pc.Returned? ==>
                  Body(s.core.procs[p].pc.answer) != Some(DuplicateCandidate))
  {
    RunAllKeepsInv(plays);
    var s := RunAll(START, plays);
    OnlyAttempt(s, p);
    if p in s.core.procs {
      Unpack(s.core, p);
    }
    hide RunAll, Inv, Truth, Perform, Absent, Legal, StoreIs, Once, Malformed;
  }

  /** Every removal of the attempt lock is of the remover's own, and no release of it meets another's file. */
  lemma RemovesOnlyItsOwn(plays: seq<Play>, p: Pid, m: Move)
    requires Turn(RunAll(START, plays), p, m).Some?
    requires m.Remove? || m.StampFailed? || m.ReadToken? || m.Compare?
    ensures var s, t := RunAll(START, plays), Turn(RunAll(START, plays), p, m).value;
            && s.file.Some? && s.file.value.owner == Some(p)
            && (m.Remove? || m.StampFailed? ==> t.file.None? && t.attempts == map[])
            && (m.ReadToken? || m.Compare? ==> t.file == s.file && p in t.attempts)
  {
    RunAllKeepsInv(plays);
    hide RunAll;
    OnlyAttempt(RunAll(START, plays), p);
    hide SystemInv;
  }

  /**
   The whole promotion gate: a process whose summary is ready, and who then finds no attempt lock, saw the claims
   hold at a point of the order; the present ledger keeps them; and no attempt and no record is under way.
   */
  lemma PromotionReadyIsEarned(plays: seq<Play>, p: Pid, summary: Summary, hours: real)
    requires var s := RunAll(START, plays);
             p in s.core.procs && s.core.procs[p].pc == Returned(Ok(Report(summary))) && s.file.None?
    requires RoundsToHours(summary.runtime, hours) && Ready(summary, hours, 72.0, 100)
    ensures var s := RunAll(START, plays);
            && Earned(s.core.log)
            && s.attempts == map[]
            && forall q :: q in s.core.procs ==> !Pending(s.core.procs[q])
  {
    RunAllKeepsInv(plays);
    hide RunAll, Inv, Earned, AttemptOk;
    var s := RunAll(START, plays);
    ReadyReportIsEarnedAt(s.core, p, summary, hours);
    if q :| q in s.attempts {
      OnlyAttempt(s, q);
    }
  }

  // ---- An attempt left alone completes

  lemma {:induction false} RunAllKeepsInvFrom(s: System, plays: seq<Play>)
    requires SystemInv(s)
    ensures SystemInv(RunAll(s, plays))
    decreases |plays|
  {
    if plays == [] {
      return;
    }
    hide Turn, SystemInv;
    var init, play := plays[..|plays| - 1], plays[|plays| - 1];
    RunAllKeepsInvFrom(s, init);
    if Turn(RunAll(s, init), play.pid, play.move).Some? {
      TurnKeepsInv(RunAll(s, init), play.pid, play.move);
    }
  }

  lemma RunAllSnoc(s: System, plays: seq<Play>, play: Play)
    ensures var before := RunAll(s, plays);
            var after := Turn(before, play.pid, play.move);
            RunAll(s, plays + [play]) == if after.Some? then after.value else before
  {
    assert (plays + [play])[..|plays|] == plays;
  }

  lemma {:induction false} RunAllConcat(s: System, a: seq<Play>, b: seq<Play>)
    ensures RunAll(s, a + b) == RunAll(RunAll(s, a), b)
    decreases |b|
  {
    hide Turn;
    if b == [] {
      assert a + b == a;
    } else {
      assert (a + b)[..|a + b| - 1] == a + b[..|b| - 1];
      RunAllConcat(s, a, b[..|b| - 1]);
    }
  }

  /** One operation of an attempt: the call, then its steps. */
  function Calling(p: Pid, op: Op, actions: seq<Action>): seq<Play>
    decreases |actions|
  {
    if actions == [] then [Play(p, Advance(op))]
    else Calling(p, op, actions[..|actions| - 1]) + [Play(p, Inner(actions[|actions| - 1]))]
  }

  lemma {:induction false} CallingRuns(s: System, p: Pid, op: Op, actions: seq<Action>)
    requires p in s.attempts && s.attempts[p].stage.Working? && Following(s, p, op).Some?
    requires Idle(s.core, p) && forall a :: a in actions ==> !a.Invoke?
    ensures RunAll(s, Calling(p, op, actions))
            == System(Run(s.core, By(p, [Invoke(op)] + actions)), s.file,
                      s.attempts[p := s.attempts[p].(phase := Following(s, p, op).value)])
    decreases |actions|
  {
    hide Next, Run, By, Following, RunAll;
    if actions == [] {
      CallRuns(s, p, op);
      assert [Invoke(op)] + actions == [Invoke(op)];
    } else {
      var n := |actions| - 1;
      assert forall a :: a in actions[..n] ==> a in actions;
      CallingRuns(s, p, op, actions[..n]);
      RunAllSnoc(s, Calling(p, op, actions[..n]), Play(p, Inner(actions[n])));
      RunByMaybe(s.core, p, [Invoke(op)] + actions[..n], actions[n]);
      assert [Invoke(op)] + actions[..n] + [actions[n]] == [Invoke(op)] + actions;
      assert actions[n] in actions;
      NextOfCrashed(Run(s.core, By(p, [Invoke(op)] + actions[..n])), p, actions[n]);
    }
  }

  lemma CallRuns(s: System, p: Pid, op: Op)
    requires p in s.attempts && s.attempts[p].stage.Working? && Following(s, p, op).Some? && Idle(s.core, p)
    ensures RunAll(s, [Play(p, Advance(op))])
            == System(Run(s.core, By(p, [Invoke(op)])), s.file,
                      s.attempts[p := s.attempts[p].(phase := Following(s, p, op).value)])
  {
    hide Next, Run, By, Following, RunAll;
    CallIsEnabled(s.core, p, op);
    RunByNothing(s.core, p);
    RunBy(s.core, p, [], Invoke(op));
    RunAllNothing(s);
    RunAllSnoc(s, [], Play(p, Advance(op)));
    assert [] + [Invoke(op)] == [Invoke(op)];
    assert [] + [Play(p, Advance(op))] == [Play(p, Advance(op))];
  }

  lemma CallIsEnabled(s: State, p: Pid, op: Op)
    requires Idle(s, p)
    ensures Next(s, p, Invoke(op)).Some?
  {
  }

  lemma NextOfCrashed(s: State, p: Pid, a: Action)
    ensures p in s.crashed ==> Next(s, p, a).None?
  {
  }

  lemma RunByMaybe(s: State, p: Pid, actions: seq<Action>, last: Action)
    ensures var before := Run(s, By(p, actions));
            var after := Next(before, p, last);
            Run(s, By(p, actions + [last])) == if after.Some? then after.value else before
  {
    var all := By(p, actions + [last]);
    assert all[..|actions|] == By(p, actions) && all[|actions|] == Step(p, last);
  }

  /** One operation of an attempt left alone: it answers as the ledger does. */
  lemma SoloOperation(s: System, p: Pid, op: Op, token: Token) returns (plays: seq<Play>)
    requires SystemInv(s) && p in s.attempts && s.attempts[p].stage.Working? && Following(s, p, op).Some?
    requires Idle(s.core, p) && s.core.lock.None?
    ensures var t, effect := RunAll(s, plays), Perform(Truth(s.core.log), op);
            && SystemInv(t) && t.file == s.file && t.core.lock.None?
            && t.attempts == s.attempts[p := s.attempts[p].(phase := Following(s, p, op).value)]
            && At(t.core, p, Returned(Ok(effect.reply))) && Truth(t.core.log) == effect.payload
  {
    hide Inv, Run, By, Following, Truth, Perform, AttemptsOk, PendingOk, OneAttempt, RunAll;
    var actions := SoloCallAt(s.core, p, op, token);
    plays := Calling(p, op, actions);
    CallingRuns(s, p, op, actions);
    RunAllKeepsInvFrom(s, plays);
    var t := RunAll(s, plays);
    SameFileSameLedger(t.core, Perform(Truth(s.core.log), op).payload);
  }

  lemma SameFileSameLedger(s: State, truth: Payload)
    requires Inv(s) && StoreIs(s.store, truth)
    ensures Truth(s.log) == truth
  {
    hide Legal, LockIsHeld, ProcOk, Truth;
  }

  /** An attempt that has looked its trigger up in vain, counted, recorded and counted again. */
  predicate Completed(s: System, t: System, p: Pid, h1: Op, r: Record, h2: Op) {
    && t.file.None? && t.attempts == map[] && t.core.lock.None?
    && At(t.core, p, Returned(Ok(Done)))
    && Truth(t.core.log)
       == Perform(Perform(Perform(Truth(s.core.log), h1).payload, RecordCandidate(r)).payload, h2).payload
  }

  /** On a ledger without the trigger, with heartbeats it accepts, an attempt of its own goes through. */
  predicate CanComplete(truth: Payload, h1: Op, r: Record, h2: Op) {
    && h1.Heartbeat? && h2.Heartbeat? && !HasSignature(truth.records, r.signature)
    && var one := Perform(truth, h1);
    && one.reply == Done
    && var two := Perform(one.payload, RecordCandidate(r));
    two.reply == Done && Perform(two.payload, h2).reply == Done
  }

  lemma AttemptBegins(s: System, p: Pid, trigger: string, token: Token) returns (plays: seq<Play>)
    requires SystemInv(s) && Idle(s.core, p) && s.file.None?
    ensures var t := RunAll(s, plays);
            && SystemInv(t) && t.core == s.core && t.attempts == map[p := Attempt(trigger, token, Entered, Working)]
            && t.file == Some(LockFile(Some(token), Some(p)))
  {
    NoFileNoAttempt(s);
    plays := [Play(p, Begin(trigger, token))] + [Play(p, Stamp)];
    RunAllSnoc(s, [], Play(p, Begin(trigger, token)));
    assert [] + [Play(p, Begin(trigger, token))] == [Play(p, Begin(trigger, token))];
    RunAllSnoc(s, [Play(p, Begin(trigger, token))], Play(p, Stamp));
    RunAllKeepsInvFrom(s, plays);
    hide SystemInv, Next;
  }

  lemma NoFileNoAttempt(s: System)
    requires SystemInv(s) && s.file.None?
    ensures s.attempts == map[]
  {
    hide Inv, AttemptsOk, PendingOk;
    if q :| q in s.attempts {
      OnlyAttempt(s, q);
    }
  }

  lemma AttemptEnds(s: System, p: Pid) returns (plays: seq<Play>)
    requires SystemInv(s) && Idle(s.core, p)
    requires p in s.attempts && s.attempts[p].stage.Working? && s.attempts.Keys == {p}
    requires s.file == Some(LockFile(Some(s.attempts[p].token), Some(p)))
    ensures var t := RunAll(s, plays);
            t.core == s.core && t.file.None? && t.attempts == map[]
  {
    hide SystemInv, Next, RunAll;
    RunAllNothing(s);
    RunAllSnoc(s, [], Play(p, Close));
    RunAllSnoc(s, [] + [Play(p, Close)], Play(p, ReadToken));
    RunAllSnoc(s, [] + [Play(p, Close)] + [Play(p, ReadToken)], Play(p, Compare));
    RunAllSnoc(s, [] + [Play(p, Close)] + [Play(p, ReadToken)] + [Play(p, Compare)], Play(p, Remove));
    plays := [] + [Play(p, Close)] + [Play(p, ReadToken)] + [Play(p, Compare)] + [Play(p, Remove)];
  }

  lemma RunAllNothing(s: System)
    ensures RunAll(s, []) == s
  {
  }

  /** The four operations of an attempt, one after the other. */
  lemma AttemptWorks(s: System, p: Pid, token: Token, h1: Op, r: Record, h2: Op) returns (plays: seq<Play>)
    requires SystemInv(s) && Idle(s.core, p) && s.core.lock.None?
    requires s.attempts == map[p := Attempt(r.signature, token, Entered, Working)]
    requires CanComplete(Truth(s.core.log), h1, r, h2)
    ensures var t := RunAll(s, plays);
            && SystemInv(t) && t.file == s.file && t.core.lock.None?
            && t.attempts == map[p := Attempt(r.signature, token, Finishing, Working)]
            && At(t.core, p, Returned(Ok(Done)))
            && Truth(t.core.log)
               == Perform(Perform(Perform(Truth(s.core.log), h1).payload, RecordCandidate(r)).payload, h2).payload
  {
    hide SystemInv, RunAll, Truth, Perform, HasSignature;
    LookupOf(Truth(s.core.log), r.signature);
    var a := SoloOperation(s, p, Contains(r.signature), token);
    var s1 := RunAll(s, a);
    var b := SoloOperation(s1, p, h1, token);
    var s2 := RunAll(s1, b);
    var c := SoloOperation(s2, p, RecordCandidate(r), token);
    var s3 := RunAll(s2, c);
    var d := SoloOperation(s3, p, h2, token);
    RunAllConcat(s, a, b);
    RunAllConcat(s, a + b, c);
    RunAllConcat(s, a + b + c, d);
    plays := a + b + c + d;
  }

  lemma LookupOf(p: Payload, signature: string)
    ensures Perform(p, Contains(signature)) == Effect(p, Found(HasSignature(p.records, signature)))
  {
  }

  /**
   From every reachable state with both locks free, a process left alone completes such an attempt: the trigger is
   recorded between two heartbeats, and both locks are free again.
   */
  lemma AttemptAloneCompletes(plays: seq<Play>, p: Pid, token: Token, h1: Op, r: Record, h2: Op)
    returns (more: seq<Play>)
    requires var s := RunAll(START, plays);
             && Idle(s.core, p) && s.file.None? && s.core.lock.None?
             && CanComplete(Truth(s.core.log), h1, r, h2)
    ensures Completed(RunAll(START, plays), RunAll(START, plays + more), p, h1, r, h2)
  {
    var s := RunAll(START, plays);
    RunAllKeepsInv(plays);
    hide SystemInv, RunAll, Truth, Perform, CanComplete;
    var a := AttemptBegins(s, p, r.signature, token);
    var b := AttemptWorks(RunAll(s, a), p, token, h1, r, h2);
    var c := AttemptEnds(RunAll(RunAll(s, a), b), p);
    RunAllConcat(s, a, b);
    RunAllConcat(s, a + b, c);
    more := a + b + c;
    RunAllConcat(START, plays, more);
  }
}
