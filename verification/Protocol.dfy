/**
 The cross-process protocol around the evidence file (backrunner/coordination.py) as a system of
 interleaved steps: exclusive create of a lock file, owner-token release, load, modify, write a
 temporary file, rename, and readers that take no lock. Any number of processes; any may stop at any
 step. The theorem is that this system is linearizable to the atomic ledger of module `Evidence`.

 Two parts of the state are history that no step consults: `log`, the order in which operations
 took effect, and each process's `invokedAt` and `event`, which place its operation in that order.
 */
module Protocol {
  import opened Wrappers
  import opened Evidence

  type Pid = nat
  type Token = nat

  /** A file: missing, partly written, or holding a payload. */
  datatype Content = Absent | Torn | Whole(payload: Payload)

  /** The lock file: its owner token, `None` until written, and whose it is, nobody's once a release failed. */
  datatype LockFile = LockFile(token: Option<Token>, owner: Option<Pid>)

  /**
   How a call fails. An interruption or a failed release can come after the operation itself has ended: `body` is
   the reply it ended with, if it had. A read fails before or after the file was opened.
   */
  datatype Failure =
    | Busy
    | LockWriteFailed
    | Unreadable
    | OwnershipChanged
    | Interrupted(body: Option<Reply>)
    | ReleaseFailed(body: Option<Reply>)
    | ReadFailed(wasOpen: bool)

  type Answer = Result<Reply, Failure>

  /** The reply the operation itself ended with, whatever became of the call. */
  function Body(answer: Answer): Option<Reply> {
    match answer
    case Ok(reply) => Some(reply)
    case Err(Interrupted(body)) => body
    case Err(ReleaseFailed(body)) => body
    case Err(_) => None
  }

  /** The calls whose operation is in the order: those whose body ended, and reads of a file they had opened. */
  predicate TookEffect(answer: Answer) {
    Body(answer).Some? || answer == Err(ReadFailed(true))
  }

  datatype Pc =
    | Entering                                 // about to create the lock file
    | Created                                  // created it, owner token not yet written
    | Inside                                   // in the locked section
    | Probed                                   // the evidence file exists
    | Prepared(next: Payload)                  // new payload computed
    | Writing(next: Payload)                   // temporary file truncated
    | Flushed(next: Payload)                   // temporary file complete
    | Leaving(answer: Answer)                  // about to read the lock file for release
    | Checking(answer: Answer, seen: Token)    // about to compare owner tokens
    | Removing(answer: Answer)                 // about to unlink
    | Seeking                                  // a reader, about to test for the file
    | Opening                                  // a reader, about to open it
    | Reading(snapshot: Content)               // a reader with the file open
    | Returned(answer: Answer)

  datatype Proc = Proc(op: Op, token: Token, pc: Pc, invokedAt: nat, event: Option<nat>)

  datatype Event = Event(pid: Pid, op: Op, reply: Reply)

  datatype State = State(
    lock: Option<LockFile>, store: Content, temp: Content, procs: map<Pid, Proc>, crashed: set<Pid>, log: seq<Event>)

  const INITIAL: State := State(None, Absent, Absent, map[], {}, [])

  datatype Action =
    | Invoke(op: Op)
    | Create(token: Token)
    | StampLock
    | StampFails
    | StampAbandons
    | Probe
    | Load
    | OpenTemp
    | FlushTemp
    | Replace
    | Interrupt
    | ReadLock
    | CompareToken
    | Unlink
    | ReleaseFails
    | Seek
    | Open
    | Read
    | ReadFails
    | Crash

  function Goto(s: State, p: Pid, pc: Pc): State
    requires p in s.procs
  {
    s.(procs := s.procs[p := s.procs[p].(pc := pc)])
  }

  /** The operation takes effect here, with this reply. */
  function Commit(s: State, p: Pid, reply: Reply, pc: Pc): State
    requires p in s.procs
  {
    s.(log := s.log + [Event(p, s.procs[p].op, reply)],
       procs := s.procs[p := s.procs[p].(pc := pc, event := Some(|s.log|))])
  }

  /** The lock file stays, and nobody is left to remove it. */
  function Abandon(s: State, p: Pid): State {
    if s.lock.Some? && s.lock.value.owner == Some(p) then s.(lock := Some(s.lock.value.(owner := None))) else s
  }

  /** A writer decides, from the payload it loaded, to refuse or to write. */
  function Decide(s: State, p: Pid, base: Payload): State
    requires p in s.procs
  {
    var effect := Perform(base, s.procs[p].op);
    if effect.reply == Done then Goto(s, p, Prepared(effect.payload))
    else Commit(s, p, effect.reply, Leaving(Ok(effect.reply)))
  }

  function InvokeStep(s: State, p: Pid, op: Op): State {
    var pc := if Writes(op) then Entering else Seeking;
    var started := s.(procs := s.procs[p := Proc(op, 0, pc, |s.log|, None)]);
    var malformed := Malformed(op);
    if malformed.Some? then Commit(started, p, malformed.value, Returned(Ok(malformed.value))) else started
  }

  /** One step of process `p`; `None` when that step is not the one it is at. */
  function Next(s: State, p: Pid, a: Action): Option<State> {
    if p in s.crashed then None
    else if a.Invoke? then
      if p !in s.procs || s.procs[p].pc.Returned? then Some(InvokeStep(s, p, a.op)) else None
    else if p !in s.procs then None
    else
      var me := s.procs[p];
      match a
      case Create(token) =>
        if !me.pc.Entering? then None
        else if s.lock.Some? then Some(Goto(s, p, Returned(Err(Busy))))
        else Some(s.(lock := Some(LockFile(None, Some(p))), procs := s.procs[p := me.(pc := Created, token := token)]))
      case StampLock =>
        if !me.pc.Created? then None
        else
          var mine := Some(LockFile(Some(me.token), Some(p)));
          Some(Goto(s, p, Inside).(lock := if s.lock.Some? && s.lock.value.owner == Some(p) then mine else s.lock))
      case StampFails =>
        if me.pc.Created? then Some(Goto(s, p, Returned(Err(LockWriteFailed))).(lock := None)) else None
      case StampAbandons =>
        if me.pc.Created? then Some(Abandon(Goto(s, p, Returned(Err(LockWriteFailed))), p)) else None
      case Probe =>
        if !me.pc.Inside? then None
        else if s.store.Absent? then Some(Decide(s, p, NEW_PAYLOAD))
        else Some(Goto(s, p, Probed))
      case Load =>
        if !me.pc.Probed? then None
        else if s.store.Whole? then Some(Decide(s, p, s.store.payload))
        else Some(Goto(s, p, Leaving(Err(Unreadable))))
      case OpenTemp => if me.pc.Prepared? then Some(Goto(s, p, Writing(me.pc.next)).(temp := Torn)) else None
      case FlushTemp =>
        if me.pc.Writing? then Some(Goto(s, p, Flushed(me.pc.next)).(temp := Whole(me.pc.next))) else None
      case Replace =>
        if !me.pc.Flushed? then None
        else if s.temp.Absent? then Some(Goto(s, p, Leaving(Err(Interrupted(None)))))
        else Some(Commit(s, p, Done, Leaving(Ok(Done))).(store := s.temp, temp := Absent))
      case Interrupt =>
        if me.pc.Inside? || me.pc.Probed? || me.pc.Prepared? || me.pc.Writing? || me.pc.Flushed?
        then Some(Goto(s, p, Leaving(Err(Interrupted(None)))))
        else if me.pc.Leaving? then Some(Goto(s, p, Leaving(Err(Interrupted(Body(me.pc.answer)))))) else None
      case ReadLock =>
        if !me.pc.Leaving? then None
        else if s.lock.None? || s.lock.value.token.None?
        then Some(Goto(s, p, Returned(Err(ReleaseFailed(Body(me.pc.answer))))))
        else Some(Goto(s, p, Checking(me.pc.answer, s.lock.value.token.value)))
      case CompareToken =>
        if !me.pc.Checking? then None
        else if me.pc.seen != me.token then Some(Goto(s, p, Returned(Err(OwnershipChanged))))
        else Some(Goto(s, p, Removing(me.pc.answer)))
      case Unlink =>
        if !me.pc.Removing? then None
        else if s.lock.None? then Some(Goto(s, p, Returned(Err(ReleaseFailed(Body(me.pc.answer))))))
        else Some(Goto(s, p, Returned(me.pc.answer)).(lock := None))
      case ReleaseFails =>
        if me.pc.Leaving? || me.pc.Checking? || me.pc.Removing?
        then Some(Abandon(Goto(s, p, Returned(Err(ReleaseFailed(Body(me.pc.answer))))), p)) else None
      case Seek =>
        if !me.pc.Seeking? then None
        else if s.store.Absent? then
          var reply := Perform(NEW_PAYLOAD, me.op).reply;
          Some(Commit(s, p, reply, Returned(Ok(reply))))
        else Some(Goto(s, p, Opening))
      case Open =>
        if !me.pc.Opening? then None
        else if s.store.Whole? then Some(Commit(s, p, Perform(s.store.payload, me.op).reply, Reading(s.store)))
        else Some(Goto(s, p, Reading(s.store)))
      case Read =>
        if !me.pc.Reading? then None
        else if me.pc.snapshot.Whole? then
          Some(Goto(s, p, Returned(Ok(Perform(me.pc.snapshot.payload, me.op).reply))))
        else Some(Goto(s, p, Returned(Err(Unreadable))))
      case ReadFails =>
        if me.pc.Seeking? || me.pc.Opening? || me.pc.Reading?
        then Some(Goto(s, p, Returned(Err(ReadFailed(me.pc.Reading?))))) else None
      case Crash => Some(s.(crashed := s.crashed + {p}))
  }

  datatype Step = Step(pid: Pid, action: Action)

  /** The state after a schedule; steps a process is not at are skipped. */
  function Run(s: State, schedule: seq<Step>): State
    decreases |schedule|
  {
    if schedule == [] then s
    else
      var before := Run(s, schedule[..|schedule| - 1]);
      var step := schedule[|schedule| - 1];
      var after := Next(before, step.pid, step.action);
      if after.Some? then after.value else before
  }

  // ---- The invariant

  function OpsOf(log: seq<Event>): (ops: seq<Op>)
    ensures |ops| == |log|
  {
    if log == [] then [] else OpsOf(log[..|log| - 1]) + [log[|log| - 1].op]
  }

  /** The atomic ledger after the operations in `log`. */
  function Truth(log: seq<Event>): Payload {
    After(OpsOf(log))
  }

  /** Every reply is the one the atomic ledger gives at that point of the order. */
  ghost predicate Legal(log: seq<Event>) {
    forall i :: 0 <= i < |log| ==> log[i].reply == Perform(Truth(log[..i]), log[i].op).reply
  }

  predicate Holds(pc: Pc) {
    || pc.Created? || pc.Inside? || pc.Probed? || pc.Prepared? || pc.Writing? || pc.Flushed?
    || pc.Leaving? || pc.Checking? || pc.Removing?
  }

  /** The file on disk is the atomic ledger's payload, or still missing. */
  predicate StoreIs(store: Content, truth: Payload) {
    store == Whole(truth) || (store.Absent? && truth == NEW_PAYLOAD)
  }

  /** The operation is in the order exactly when the answer says so, and with the reply its body ended with. */
  predicate Answered(s: State, me: Proc, answer: Answer) {
    && (TookEffect(answer) <==> me.event.Some?)
    && (Body(answer).Some? ==> me.event.value < |s.log| && s.log[me.event.value].reply == Body(answer).value)
  }

  /** The current operation of `p` is in the log at most once: at `event`, if anywhere. */
  ghost predicate Once(log: seq<Event>, p: Pid, invokedAt: nat, event: Option<nat>) {
    forall i :: invokedAt <= i < |log| && log[i].pid == p ==> event == Some(i)
  }

  ghost predicate ProcOk(s: State, p: Pid)
    requires p in s.procs
  {
    var me := s.procs[p];
    && me.invokedAt <= |s.log|
    && (me.event.Some? ==>
          me.invokedAt <= me.event.value < |s.log|
          && s.log[me.event.value].pid == p && s.log[me.event.value].op == me.op)
    && (Holds(me.pc) ==> s.lock == Some(LockFile(if me.pc.Created? then None else Some(me.token), Some(p))))
    && Once(s.log, p, me.invokedAt, me.event)
    && PcOk(s, me)
  }

  ghost predicate PcOk(s: State, me: Proc) {
    var pc := me.pc;
    && (pc.Entering? || pc.Created? || pc.Inside? || pc.Probed? ==>
          me.event.None? && Writes(me.op) && Malformed(me.op).None?)
    && (pc.Probed? || pc.Opening? ==> !s.store.Absent?)
    && (pc.Prepared? || pc.Writing? || pc.Flushed? ==>
          me.event.None? && Perform(Truth(s.log), me.op) == Effect(pc.next, Done))
    && (pc.Flushed? ==> s.temp == Whole(pc.next))
    && (pc.Leaving? || pc.Checking? || pc.Removing? || pc.Returned? ==> Answered(s, me, pc.answer))
    && (pc.Leaving? || pc.Checking? || pc.Removing? ==> pc.answer != Err(ReadFailed(true)))
    && (pc.Checking? ==> pc.seen == me.token)
    && (pc.Seeking? || pc.Opening? ==> me.event.None? && !Writes(me.op))
    && (pc.Reading? ==>
          me.event.Some? && me.event.value <= |s.log| && pc.snapshot == Whole(Truth(s.log[..me.event.value])))
  }

  ghost predicate Inv(s: State) {
    && Legal(s.log)
    && StoreIs(s.store, Truth(s.log))
    && LockIsHeld(s)
    && forall p :: p in s.procs ==> ProcOk(s, p)
  }

  // ---- It holds on every run

  lemma TruthSnoc(log: seq<Event>, e: Event)
    ensures Truth(log + [e]) == Perform(Truth(log), e.op).payload
    ensures forall i :: 0 <= i <= |log| ==> (log + [e])[..i] == log[..i]
  {
    assert (log + [e])[..|log|] == log;
    assert OpsOf(log + [e]) == OpsOf(log) + [e.op];
    assert OpsOf(log + [e])[..|log|] == OpsOf(log);
  }

  lemma LegalSnoc(log: seq<Event>, e: Event)
    requires Legal(log) && e.reply == Perform(Truth(log), e.op).reply
    ensures Legal(log + [e])
  {
    TruthSnoc(log, e);
    assert log[..|log|] == log;
  }

  /** An operation that only reads, or is refused, leaves the payload alone. */
  lemma OnlyDoneChanges(p: Payload, op: Op)
    requires !Writes(op) || Perform(p, op).reply != Done
    ensures Perform(p, op).payload == p
  {
  }

  ghost predicate OthersOk(s: State, p: Pid) {
    forall q :: q in s.procs && q != p ==> ProcOk(s, q)
  }

  predicate OthersIdle(s: State, p: Pid) {
    forall q :: q in s.procs && q != p ==> !Holds(s.procs[q].pc)
  }

  predicate LockIsHeld(s: State) {
    s.lock.Some? && s.lock.value.owner.Some? ==>
      s.lock.value.owner.value in s.procs && Holds(s.procs[s.lock.value.owner.value].pc)
  }

  predicate OnlyMoves(s: State, t: State, p: Pid) {
    p in t.procs && t.procs == s.procs[p := t.procs[p]]
  }

  /** What a step of one process must leave alone for the others. */
  ghost predicate Frames(s: State, t: State, p: Pid) {
    && OnlyMoves(s, t, p)
    && (t.log == s.log || (|t.log| == |s.log| + 1 && t.log[..|s.log|] == s.log && t.log[|s.log|].pid == p))
    && (s.store.Absent? || !t.store.Absent?)
    && ((t.lock == s.lock && t.temp == s.temp && Truth(t.log) == Truth(s.log)) || OthersIdle(s, p))
  }

  lemma OthersUnaffected(s: State, t: State, p: Pid)
    requires OthersOk(s, p) && Frames(s, t, p)
    ensures OthersOk(t, p)
  {
    hide Truth, Perform, Legal, StoreIs;
    forall q | q in t.procs && q != p
      ensures ProcOk(t, q)
    {
      assert ProcOk(s, q);
      var me := s.procs[q];
      assert forall i :: 0 <= i < |s.log| ==> t.log[i] == s.log[i];
      if me.event.Some? {
        assert t.log[me.event.value] == s.log[me.event.value];
        assert t.log[..me.event.value] == s.log[..me.event.value];
      }
    }
  }

  lemma Unpack(s: State, p: Pid)
    requires Inv(s) && p in s.procs
    ensures ProcOk(s, p) && OthersOk(s, p) && Legal(s.log) && StoreIs(s.store, Truth(s.log)) && LockIsHeld(s)
    ensures Holds(s.procs[p].pc) || s.lock.None? || s.lock.value.owner.None? ==> OthersIdle(s, p)
    ensures s.lock.Some? && !Holds(s.procs[p].pc) ==> s.lock.value.owner != Some(p)
  {
    hide Truth, Perform, Legal, StoreIs;
    forall q | q in s.procs && q != p && Holds(s.procs[q].pc)
      ensures s.lock.Some? && s.lock.value.owner.Some? && !Holds(s.procs[p].pc)
    {
      assert ProcOk(s, p) && ProcOk(s, q);
    }
  }

  lemma Pack(s: State, t: State, p: Pid)
    requires OthersOk(s, p) && Frames(s, t, p)
    requires ProcOk(t, p) && Legal(t.log) && StoreIs(t.store, Truth(t.log)) && LockIsHeld(t)
    ensures Inv(t)
  {
    OthersUnaffected(s, t, p);
  }

  /** While a process holds the lock, no other does. */
  lemma OneHolder(s: State, p: Pid, q: Pid)
    requires Inv(s) && p in s.procs && q in s.procs
    requires Holds(s.procs[p].pc) && Holds(s.procs[q].pc)
    ensures p == q
  {
    Unpack(s, p);
  }

  lemma OnceSnoc(log: seq<Event>, e: Event, p: Pid, me: Proc)
    requires Once(log, p, me.invokedAt, me.event) && me.event.None?
    ensures Once(log + [e], p, me.invokedAt, Some(|log|))
  {
  }

  /** Committing an operation that leaves the payload alone. */
  lemma CommitKeepsInv(s: State, p: Pid, reply: Reply, pc: Pc)
    requires Legal(s.log) && StoreIs(s.store, Truth(s.log)) && OthersOk(s, p) && LockIsHeld(s)
    requires p in s.procs && s.procs[p].invokedAt <= |s.log| && s.procs[p].event.None?
    requires Once(s.log, p, s.procs[p].invokedAt, None)
    requires Perform(Truth(s.log), s.procs[p].op) == Effect(Truth(s.log), reply)
    requires pc == Returned(Ok(reply)) || pc == Leaving(Ok(reply)) || pc == Reading(Whole(Truth(s.log)))
    requires if pc.Leaving? then s.lock == Some(LockFile(Some(s.procs[p].token), Some(p)))
             else s.lock.Some? ==> s.lock.value.owner != Some(p)
    ensures Inv(Commit(s, p, reply, pc))
  {
    hide Truth, Perform, Legal, OthersOk, OthersIdle, StoreIs, Once, Malformed, Inv;
    var e, t := Event(p, s.procs[p].op, reply), Commit(s, p, reply, pc);
    TruthSnoc(s.log, e);
    LegalSnoc(s.log, e);
    OnceSnoc(s.log, e, p, s.procs[p]);
    Pack(s, t, p);
  }

  lemma MalformedChangesNothing(p: Payload, op: Op)
    ensures Malformed(op).Some? ==> Writes(op) && Perform(p, op) == Effect(p, Malformed(op).value)
  {
  }

  /** What the invariant says around a process that is about to make a call. */
  lemma OthersStay(s: State, p: Pid)
    requires Inv(s) && (p in s.procs ==> s.procs[p].pc.Returned?)
    ensures OthersOk(s, p) && Legal(s.log) && StoreIs(s.store, Truth(s.log)) && LockIsHeld(s)
    ensures s.lock.Some? ==> s.lock.value.owner != Some(p)
  {
    hide Truth, Perform, Legal, StoreIs;
    if p in s.procs {
      Unpack(s, p);
    }
  }

  lemma OnceFromHere(log: seq<Event>, p: Pid)
    ensures Once(log, p, |log|, None)
  {
  }

  lemma InvokeKeepsInv(s: State, p: Pid, op: Op)
    requires Inv(s) && Next(s, p, Invoke(op)).Some?
    ensures Inv(Next(s, p, Invoke(op)).value)
  {
    hide Truth, Perform, Legal, Malformed, StoreIs, Once;
    var pc := if Writes(op) then Entering else Seeking;
    var started := s.(procs := s.procs[p := Proc(op, 0, pc, |s.log|, None)]);
    MalformedChangesNothing(Truth(s.log), op);
    OthersStay(s, p);
    hide Inv, OthersOk, OthersIdle;
    OnceFromHere(s.log, p);
    OthersUnaffected(s, started, p);
    if Malformed(op).Some? {
      CommitKeepsInv(started, p, Malformed(op).value, Returned(Ok(Malformed(op).value)));
    } else {
      Pack(s, started, p);
    }
  }

  lemma EnterKeepsInv(s: State, p: Pid, a: Action)
    requires a.Create? || a.StampLock?
    requires Inv(s) && Next(s, p, a).Some?
    ensures Inv(Next(s, p, a).value)
  {
    hide Truth, Perform, Legal, StoreIs, OthersOk, OthersIdle, Malformed, Once;
    Unpack(s, p);
    hide Inv;
    Pack(s, Next(s, p, a).value, p);
  }

  lemma StampFailsKeepsInv(s: State, p: Pid, a: Action)
    requires a.StampFails? || a.StampAbandons?
    requires Inv(s) && Next(s, p, a).Some?
    ensures Inv(Next(s, p, a).value)
  {
    hide Truth, Perform, Legal, StoreIs, OthersOk, OthersIdle, Malformed, Once;
    Unpack(s, p);
    hide Inv;
    Pack(s, Next(s, p, a).value, p);
  }

  lemma LeaveKeepsInv(s: State, p: Pid, a: Action)
    requires a.ReadLock? || a.CompareToken?
    requires Inv(s) && Next(s, p, a).Some?
    ensures Inv(Next(s, p, a).value)
  {
    hide Truth, Perform, Legal, StoreIs, OthersOk, OthersIdle, Malformed, Once;
    Unpack(s, p);
    hide Inv;
    Pack(s, Next(s, p, a).value, p);
  }

  lemma UnlinkKeepsInv(s: State, p: Pid, a: Action)
    requires a.Unlink? || a.ReleaseFails?
    requires Inv(s) && Next(s, p, a).Some?
    ensures Inv(Next(s, p, a).value)
  {
    hide Truth, Perform, Legal, StoreIs, OthersOk, OthersIdle, Malformed, Once;
    Unpack(s, p);
    hide Inv;
    Pack(s, Next(s, p, a).value, p);
  }

  lemma ReadFailsKeepsInv(s: State, p: Pid, a: Action)
    requires a.ReadFails?
    requires Inv(s) && Next(s, p, a).Some?
    ensures Inv(Next(s, p, a).value)
  {
    hide Truth, Perform, Legal, StoreIs, OthersOk, OthersIdle, Malformed, Once;
    Unpack(s, p);
    hide Inv;
    Pack(s, Next(s, p, a).value, p);
  }

  lemma WriteKeepsInv(s: State, p: Pid, a: Action)
    requires a.OpenTemp? || a.FlushTemp? || a.Interrupt?
    requires Inv(s) && Next(s, p, a).Some?
    ensures Inv(Next(s, p, a).value)
  {
    hide Truth, Perform, Legal, StoreIs, OthersOk, OthersIdle, Malformed, Once;
    Unpack(s, p);
    hide Inv;
    Pack(s, Next(s, p, a).value, p);
  }

  lemma DecideKeepsInv(s: State, p: Pid, base: Payload)
    requires Inv(s) && p in s.procs && base == Truth(s.log)
    requires s.procs[p].pc.Inside? || s.procs[p].pc.Probed?
    ensures Inv(Decide(s, p, base))
  {
    Unpack(s, p);
    var op := s.procs[p].op;
    if Perform(base, op).reply != Done {
      OnlyDoneChanges(base, op);
    }
    hide Inv, Truth, Perform, Legal, StoreIs, OthersOk, OthersIdle, Malformed;
    var reply := Perform(base, op).reply;
    if reply != Done {
      CommitKeepsInv(s, p, reply, Leaving(Ok(reply)));
    } else {
      Pack(s, Decide(s, p, base), p);
    }
  }

  lemma ProbeKeepsInv(s: State, p: Pid)
    requires Inv(s) && Next(s, p, Probe).Some?
    ensures Inv(Next(s, p, Probe).value)
  {
    hide Truth, Perform, Legal, OthersOk, OthersIdle, Malformed, Decide;
    Unpack(s, p);
    hide Inv;
    if s.store.Absent? {
      DecideKeepsInv(s, p, NEW_PAYLOAD);
    } else {
      Pack(s, Next(s, p, Probe).value, p);
    }
  }

  lemma LoadKeepsInv(s: State, p: Pid)
    requires Inv(s) && Next(s, p, Load).Some?
    ensures Inv(Next(s, p, Load).value)
  {
    hide Truth, Perform, Legal, OthersOk, OthersIdle, Malformed, Decide;
    Unpack(s, p);
    hide Inv;
    DecideKeepsInv(s, p, s.store.payload);
  }

  lemma ReplaceKeepsInv(s: State, p: Pid)
    requires Inv(s) && Next(s, p, Replace).Some?
    ensures Inv(Next(s, p, Replace).value)
  {
    hide Truth, Perform, Legal, OthersOk, OthersIdle, Malformed, Once;
    Unpack(s, p);
    hide Inv;
    var t, e := Next(s, p, Replace).value, Event(p, s.procs[p].op, Done);
    TruthSnoc(s.log, e);
    LegalSnoc(s.log, e);
    OnceSnoc(s.log, e, p, s.procs[p]);
    Pack(s, t, p);
  }

  lemma CrashKeepsInv(s: State, p: Pid)
    requires Inv(s) && Next(s, p, Crash).Some?
    ensures Inv(Next(s, p, Crash).value)
  {
    hide Truth, Perform, Legal, StoreIs, Malformed;
    var t := Next(s, p, Crash).value;
    forall q | q in t.procs
      ensures ProcOk(t, q)
    {
      assert ProcOk(s, q);
    }
  }

  lemma SeekKeepsInv(s: State, p: Pid)
    requires Inv(s) && Next(s, p, Seek).Some?
    ensures Inv(Next(s, p, Seek).value)
  {
    hide Truth, Perform, Legal, OthersOk, OthersIdle, Malformed, Writes;
    Unpack(s, p);
    hide Inv;
    var op := s.procs[p].op;
    if s.store.Absent? {
      OnlyDoneChanges(NEW_PAYLOAD, op);
      var reply := Perform(NEW_PAYLOAD, op).reply;
      CommitKeepsInv(s, p, reply, Returned(Ok(reply)));
    } else {
      Pack(s, Next(s, p, Seek).value, p);
    }
  }

  lemma OpenKeepsInv(s: State, p: Pid)
    requires Inv(s) && Next(s, p, Open).Some?
    ensures Inv(Next(s, p, Open).value)
  {
    hide Truth, Perform, Legal, OthersOk, OthersIdle, Malformed, Writes;
    Unpack(s, p);
    hide Inv;
    OnlyDoneChanges(Truth(s.log), s.procs[p].op);
    CommitKeepsInv(s, p, Perform(Truth(s.log), s.procs[p].op).reply, Reading(s.store));
  }

  lemma LegalAt(log: seq<Event>, i: nat)
    requires Legal(log) && i < |log|
    ensures log[i].reply == Perform(Truth(log[..i]), log[i].op).reply
  {
  }

  lemma ReadKeepsInv(s: State, p: Pid)
    requires Inv(s) && Next(s, p, Read).Some?
    ensures Inv(Next(s, p, Read).value)
  {
    hide Truth, Perform, Legal, OthersOk, OthersIdle, Malformed, Writes, StoreIs;
    Unpack(s, p);
    hide Inv;
    LegalAt(s.log, s.procs[p].event.value);
    Pack(s, Next(s, p, Read).value, p);
  }

  lemma StepKeepsInv(s: State, p: Pid, a: Action)
    requires Inv(s) && Next(s, p, a).Some?
    ensures Inv(Next(s, p, a).value)
  {
    hide Next, Inv;
    match a
    case Invoke(op) => InvokeKeepsInv(s, p, op);
    case Probe => ProbeKeepsInv(s, p);
    case Load => LoadKeepsInv(s, p);
    case Replace => ReplaceKeepsInv(s, p);
    case Seek => SeekKeepsInv(s, p);
    case Open => OpenKeepsInv(s, p);
    case Read => ReadKeepsInv(s, p);
    case Crash => CrashKeepsInv(s, p);
    case OpenTemp | FlushTemp | Interrupt => WriteKeepsInv(s, p, a);
    case StampFails | StampAbandons => StampFailsKeepsInv(s, p, a);
    case ReadLock | CompareToken => LeaveKeepsInv(s, p, a);
    case Unlink | ReleaseFails => UnlinkKeepsInv(s, p, a);
    case ReadFails => ReadFailsKeepsInv(s, p, a);
    case _ => EnterKeepsInv(s, p, a);
  }

  lemma {:induction false} RunKeepsInv(schedule: seq<Step>)
    ensures Inv(Run(INITIAL, schedule))
    decreases |schedule|
  {
    hide Next;
    if schedule != [] {
      var init, step := schedule[..|schedule| - 1], schedule[|schedule| - 1];
      RunKeepsInv(init);
      var before := Run(INITIAL, init);
      if Next(before, step.pid, step.action).Some? {
        StepKeepsInv(before, step.pid, step.action);
      }
    }
  }

  // ---- What it means

  /** The file a reader or the next writer finds is never half-written and always a committed payload. */
  lemma StoreIsAlwaysCommitted(schedule: seq<Step>)
    ensures var s := Run(INITIAL, schedule);
            && StoreIs(s.store, Truth(s.log))
            && DistinctSignatures(Truth(s.log).records)
  {
    RunKeepsInv(schedule);
    SignaturesStayDistinct(OpsOf(Run(INITIAL, schedule).log));
  }

  /** Event `i` is the current operation of `p`, made since its call. */
  predicate IsEventOf(s: State, p: Pid, i: nat)
    requires p in s.procs
  {
    s.procs[p].invokedAt <= i < |s.log| && s.log[i].pid == p
  }

  /**
   What the order says of a process's current operation: it is there at most once; once the call has ended, exactly
   when its operation took effect, with the reply its body ended with; and a reader's copy of the file is the
   ledger at the reader's own place.
   */
  ghost predicate Explained(s: State, p: Pid)
    requires p in s.procs
  {
    var me := s.procs[p];
    && (forall i: nat :: IsEventOf(s, p, i) ==> s.log[i].op == me.op)
    && (forall i: nat, j: nat :: IsEventOf(s, p, i) && IsEventOf(s, p, j) ==> i == j)
    && (me.pc.Returned? ==> (TookEffect(me.pc.answer) <==> exists i: nat :: IsEventOf(s, p, i)))
    && (me.pc.Returned? && Body(me.pc.answer).Some? ==>
          exists i: nat :: IsEventOf(s, p, i) && s.log[i] == Event(p, me.op, Body(me.pc.answer).value))
    && (me.pc.Reading? ==> exists i: nat :: IsEventOf(s, p, i) && me.pc.snapshot == Whole(Truth(s.log[..i])))
  }

  lemma OkIsExplained(s: State, p: Pid)
    requires p in s.procs && ProcOk(s, p)
    ensures Explained(s, p)
  {
    hide Truth, Perform, Malformed;
    var me := s.procs[p];
    assert me.event.Some? ==> IsEventOf(s, p, me.event.value);
  }

  /**
   Linearizability. On every schedule, the operations that took effect form one list on which the
   atomic ledger gives exactly the replies returned; the file holds the payload the list leads to; and the
   list explains every process's current operation, at a place since its call.
   */
  lemma Linearizable(schedule: seq<Step>)
    ensures var s := Run(INITIAL, schedule);
            && Legal(s.log)
            && StoreIs(s.store, Truth(s.log))
            && forall p :: p in s.procs ==> Explained(s, p)
  {
    RunKeepsInv(schedule);
    hide Run, Truth, Legal, StoreIs, ProcOk, Explained;
    var s := Run(INITIAL, schedule);
    forall p | p in s.procs
      ensures Explained(s, p)
    {
      OkIsExplained(s, p);
    }
  }

  lemma NextExtendsLog(s: State, p: Pid, a: Action)
    requires Next(s, p, a).Some?
    ensures s.log <= Next(s, p, a).value.log
  {
  }

  lemma {:induction false} LogOnlyGrows(s: State, schedule: seq<Step>)
    ensures s.log <= Run(s, schedule).log
    decreases |schedule|
  {
    hide Next;
    if schedule != [] {
      var init, step := schedule[..|schedule| - 1], schedule[|schedule| - 1];
      LogOnlyGrows(s, init);
      if Next(Run(s, init), step.pid, step.action).Some? {
        NextExtendsLog(Run(s, init), step.pid, step.action);
      }
    }
  }

  lemma {:induction false} RunConcat(s: State, a: seq<Step>, b: seq<Step>)
    ensures Run(s, a + b) == Run(Run(s, a), b)
    decreases |b|
  {
    hide Next;
    if b == [] {
      assert a + b == a;
    } else {
      assert (a + b)[..|a + b| - 1] == a + b[..|b| - 1];
      RunConcat(s, a, b[..|b| - 1]);
    }
  }

  lemma {:induction false} OpsOfConcat(a: seq<Event>, b: seq<Event>)
    ensures OpsOf(a + b) == OpsOf(a) + OpsOf(b)
    decreases |b|
  {
    if b == [] {
      assert a + b == a;
    } else {
      assert (a + b)[..|a + b| - 1] == a + b[..|b| - 1];
      OpsOfConcat(a, b[..|b| - 1]);
    }
  }

  /** Nothing committed is ever lost, whatever happens next and whoever stops. */
  lemma CommittedIsNeverLost(before: seq<Step>, more: seq<Step>)
    ensures var s, t := Run(INITIAL, before), Run(INITIAL, before + more);
            && s.log <= t.log
            && Truth(s.log).records <= Truth(t.log).records
            && Truth(s.log).runtime <= Truth(t.log).runtime
  {
    RunConcat(INITIAL, before, more);
    var s, t := Run(INITIAL, before), Run(INITIAL, before + more);
    LogOnlyGrows(s, more);
    hide Run, After;
    var rest := t.log[|s.log|..];
    assert t.log == s.log + rest;
    OpsOfConcat(s.log, rest);
    LedgerOnlyGrows(OpsOf(s.log), OpsOf(rest));
  }

  /** The lock file is there although nobody holds it. */
  predicate Abandoned(s: State) {
    s.lock.Some? && s.lock.value.owner.None?
  }

  /** Step `k` of a schedule is a release that fails, or the clean-up after a failed write that does. */
  predicate FailsAt(schedule: seq<Step>, k: nat)
    requires k < |schedule|
  {
    var step := schedule[k];
    (step.action.ReleaseFails? || step.action.StampAbandons?)
    && Next(Run(INITIAL, schedule[..k]), step.pid, step.action).Some?
  }

  predicate Failed(schedule: seq<Step>) {
    exists k :: 0 <= k < |schedule| && FailsAt(schedule, k)
  }

  lemma AbandonStep(s: State, p: Pid, a: Action)
    requires Inv(s) && Next(s, p, a).Some?
    ensures Abandoned(Next(s, p, a).value) <==> Abandoned(s) || a.ReleaseFails? || a.StampAbandons?
  {
    hide Truth, Perform, Legal, StoreIs, Malformed, Once;
    if p in s.procs {
      Unpack(s, p);
    }
    hide Inv, OthersOk;
  }

  lemma FailedSnoc(init: seq<Step>, step: Step)
    ensures Failed(init + [step]) <==>
            Failed(init) || (Next(Run(INITIAL, init), step.pid, step.action).Some?
                             && (step.action.ReleaseFails? || step.action.StampAbandons?))
  {
    hide Run, Next;
    var all := init + [step];
    assert all[..|init|] == init && all[|init|] == step;
    forall k | 0 <= k < |init|
      ensures FailsAt(all, k) == FailsAt(init, k)
    {
      assert all[..k] == init[..k] && all[k] == init[k];
    }
    assert FailsAt(all, |init|) <==> Next(Run(INITIAL, init), step.pid, step.action).Some?
                                     && (step.action.ReleaseFails? || step.action.StampAbandons?);
  }

  /** A lock file nobody holds is exactly what a release or clean-up that failed leaves. */
  lemma {:induction false} AbandonedExactly(schedule: seq<Step>)
    ensures Abandoned(Run(INITIAL, schedule)) <==> Failed(schedule)
    decreases |schedule|
  {
    if schedule == [] {
      return;
    }
    hide Next, Failed, Abandoned, Inv;
    var init, step := schedule[..|schedule| - 1], schedule[|schedule| - 1];
    assert schedule == init + [step];
    AbandonedExactly(init);
    FailedSnoc(init, step);
    RunKeepsInv(init);
    if Next(Run(INITIAL, init), step.pid, step.action).Some? {
      AbandonStep(Run(INITIAL, init), step.pid, step.action);
    }
  }

  /**
   The lock file exists exactly while some process, live or crashed, has created and not released it: one
   that holds it, and only one, or one whose release or clean-up failed, and then nobody does.
   */
  lemma LockSafety(schedule: seq<Step>)
    ensures var s := Run(INITIAL, schedule);
            && (s.lock.Some? <==> Failed(schedule) || exists p :: p in s.procs && Holds(s.procs[p].pc))
            && (forall p, q :: p in s.procs && q in s.procs && Holds(s.procs[p].pc) && Holds(s.procs[q].pc) ==> p == q)
            && (forall p :: p in s.procs && Holds(s.procs[p].pc) ==>
                  s.lock.Some? && s.lock.value.owner == Some(p) && !Failed(schedule))
  {
    RunKeepsInv(schedule);
    AbandonedExactly(schedule);
    hide Run, Truth, Legal, StoreIs, PcOk, Once, Failed;
    var s := Run(INITIAL, schedule);
    forall p | p in s.procs && Holds(s.procs[p].pc)
      ensures s.lock.Some? && s.lock.value.owner == Some(p)
    {
      assert ProcOk(s, p);
    }
  }

  /** Every deletion of the lock file, by release or after a failed write, deletes the deleter's own. */
  lemma DeletesOnlyItsOwn(schedule: seq<Step>, p: Pid, a: Action)
    requires a.Unlink? || a.StampFails?
    requires Next(Run(INITIAL, schedule), p, a).Some?
    ensures var s, t := Run(INITIAL, schedule), Next(Run(INITIAL, schedule), p, a).value;
            && s.lock.Some? && s.lock.value.owner == Some(p)
            && t.lock.None? && (forall q :: q in t.procs ==> !Holds(t.procs[q].pc))
  {
    RunKeepsInv(schedule);
    hide Run, Truth, Legal, StoreIs, Once, PcOk;
    Unpack(Run(INITIAL, schedule), p);
    hide Inv;
  }

  /** Within the protocol a release never meets a foreign or unreadable lock file. */
  lemma ReleaseNeverRefuses(schedule: seq<Step>, p: Pid, a: Action)
    requires a.ReadLock? || a.CompareToken? || a.Unlink?
    requires Next(Run(INITIAL, schedule), p, a).Some?
    ensures var s, pc := Run(INITIAL, schedule), Next(Run(INITIAL, schedule), p, a).value.procs[p].pc;
            var answer := s.procs[p].pc.answer;
            && (a.ReadLock? ==> pc == Checking(answer, s.procs[p].token))
            && (a.CompareToken? ==> pc == Removing(answer))
            && (a.Unlink? ==> pc == Returned(answer))
  {
    RunKeepsInv(schedule);
    hide Run, Truth, Legal, StoreIs, Once, OthersOk, OthersIdle;
    Unpack(Run(INITIAL, schedule), p);
    hide Inv;
  }

  /** Nobody who could still act can remove the lock file. */
  predicate Frozen(s: State) {
    && s.lock.Some?
    && (s.lock.value.owner.Some? ==>
          && s.lock.value.owner.value in s.crashed && s.lock.value.owner.value in s.procs
          && Holds(s.procs[s.lock.value.owner.value].pc))
  }

  lemma FrozenStep(s: State, p: Pid, a: Action)
    requires Inv(s) && Frozen(s) && Next(s, p, a).Some?
    ensures var t := Next(s, p, a).value;
            Frozen(t) && t.store == s.store && t.lock == s.lock
  {
    hide Truth, Perform, Legal, StoreIs, PcOk, Once, Malformed;
    if p in s.procs {
      Unpack(s, p);
    }
    hide Inv, OthersOk;
  }

  /**
   Fail closed: once a process stops while holding the lock, or its release fails, the lock file and the
   evidence never change again.
   */
  lemma {:induction false} FrozenForGood(before: seq<Step>, more: seq<Step>)
    requires Frozen(Run(INITIAL, before))
    ensures var s, t := Run(INITIAL, before), Run(INITIAL, before + more);
            Frozen(t) && t.store == s.store && t.lock == s.lock
    decreases |more|
  {
    hide Next, Frozen;
    if more == [] {
      assert before + more == before;
    } else {
      var init, step, all := more[..|more| - 1], more[|more| - 1], before + more;
      FrozenForGood(before, init);
      assert all[..|all| - 1] == before + init && all[|all| - 1] == step;
      RunKeepsInv(before + init);
      var mid := Run(INITIAL, before + init);
      if Next(mid, step.pid, step.action).Some? {
        FrozenStep(mid, step.pid, step.action);
      }
    }
  }

  lemma CrashedHolderFreezes(before: seq<Step>, more: seq<Step>, holder: Pid)
    requires var s := Run(INITIAL, before);
             holder in s.procs && holder in s.crashed && Holds(s.procs[holder].pc)
    ensures var s, t := Run(INITIAL, before), Run(INITIAL, before + more);
            t.store == s.store && t.lock == s.lock
  {
    hide Run;
    LockSafety(before);
    FrozenForGood(before, more);
  }

  /** After a failed release in particular: what was committed stays, and nothing more ever is. */
  lemma FailedReleaseFreezes(before: seq<Step>, p: Pid, more: seq<Step>)
    requires Next(Run(INITIAL, before), p, ReleaseFails).Some?
    ensures var s, t := Run(INITIAL, before), Run(INITIAL, (before + [Step(p, ReleaseFails)]) + more);
            t.store == s.store && t.lock.Some? && forall q :: q in t.procs ==> !Holds(t.procs[q].pc)
  {
    var s, step := Run(INITIAL, before), Step(p, ReleaseFails);
    RunKeepsInv(before);
    assert (before + [step])[..|before|] == before;
    assert Run(INITIAL, before + [step]) == Next(s, p, ReleaseFails).value;
    Unpack(s, p);
    assert Abandoned(Run(INITIAL, before + [step]));
    hide Run, Next, Inv;
    FrozenForGood(before + [step], more);
    LockSafety((before + [step]) + more);
  }

  // ---- A process left alone completes its operation

  /** The steps `actions`, all by process `p`. */
  function By(p: Pid, actions: seq<Action>): (steps: seq<Step>)
    ensures |steps| == |actions| && forall i :: 0 <= i < |steps| ==> steps[i] == Step(p, actions[i])
  {
    seq(|actions|, i requires 0 <= i < |actions| => Step(p, actions[i]))
  }

  lemma RunBy(s: State, p: Pid, actions: seq<Action>, last: Action)
    requires Next(Run(s, By(p, actions)), p, last).Some?
    ensures Run(s, By(p, actions + [last])) == Next(Run(s, By(p, actions)), p, last).value
  {
    var all := By(p, actions + [last]);
    assert all[..|actions|] == By(p, actions) && all[|actions|] == Step(p, last);
  }

  lemma RunByNothing(s: State, p: Pid)
    ensures Run(s, By(p, [])) == s
  {
  }

  lemma RunByConcat(s: State, p: Pid, a: seq<Action>, b: seq<Action>)
    ensures Run(s, By(p, a + b)) == Run(Run(s, By(p, a)), By(p, b))
  {
    assert By(p, a + b) == By(p, a) + By(p, b);
    RunConcat(s, By(p, a), By(p, b));
  }

  lemma RunByThree(s: State, p: Pid, a: Action, b: Action, c: Action)
    requires Next(s, p, a).Some? && Next(Next(s, p, a).value, p, b).Some?
    requires Next(Next(Next(s, p, a).value, p, b).value, p, c).Some?
    ensures Run(s, By(p, [a, b, c])) == Next(Next(Next(s, p, a).value, p, b).value, p, c).value
  {
    hide Run, Next;
    assert [] + [a] == [a] && [a] + [b] == [a, b] && [a, b] + [c] == [a, b, c];
    RunByNothing(s, p);
    RunBy(s, p, [], a);
    RunBy(s, p, [a], b);
    RunBy(s, p, [a, b], c);
  }

  const SAVE: seq<Action> := [OpenTemp, FlushTemp, Replace]
  const LEAVE: seq<Action> := [ReadLock, CompareToken, Unlink]

  predicate At(s: State, p: Pid, pc: Pc) {
    p in s.procs && p !in s.crashed && s.procs[p].pc == pc
  }

  predicate OwnLock(s: State, p: Pid)
    requires p in s.procs
  {
    s.lock == Some(LockFile(Some(s.procs[p].token), Some(p)))
  }

  lemma SoloLeave(s: State, p: Pid, answer: Answer)
    requires At(s, p, Leaving(answer)) && OwnLock(s, p)
    ensures var t := Run(s, By(p, LEAVE));
            && At(t, p, Returned(answer)) && t.procs[p].op == s.procs[p].op && t.lock.None? && t.store == s.store
  {
    hide Run;
    RunByThree(s, p, ReadLock, CompareToken, Unlink);
  }

  lemma SoloSave(s: State, p: Pid, next: Payload)
    requires At(s, p, Prepared(next)) && OwnLock(s, p)
    ensures var t := Run(s, By(p, SAVE));
            At(t, p, Leaving(Ok(Done))) && OwnLock(t, p) && t.store == Whole(next) && t.procs[p].op == s.procs[p].op
  {
    hide Run;
    RunByThree(s, p, OpenTemp, FlushTemp, Replace);
  }

  lemma SoloEnter(s: State, p: Pid, op: Op, token: Token)
    requires Idle(s, p) && s.lock.None? && Writes(op) && Malformed(op).None?
    ensures var t := Run(s, By(p, [Invoke(op), Create(token), StampLock]));
            At(t, p, Inside) && OwnLock(t, p) && t.store == s.store && t.procs[p].op == op
  {
    hide Run, Malformed, Perform;
    RunByThree(s, p, Invoke(op), Create(token), StampLock);
  }

  /** A process between calls that has not stopped. */
  predicate Idle(s: State, p: Pid) {
    p !in s.crashed && (p in s.procs ==> s.procs[p].pc.Returned?)
  }

  lemma SoloDecide(s: State, p: Pid, truth: Payload) returns (actions: seq<Action>)
    requires At(s, p, Inside) && OwnLock(s, p) && StoreIs(s.store, truth)
    ensures var t, effect := Run(s, By(p, actions)), Perform(truth, s.procs[p].op);
            && At(t, p, if effect.reply == Done then Prepared(effect.payload) else Leaving(Ok(effect.reply)))
            && OwnLock(t, p) && t.store == s.store && t.procs[p].op == s.procs[p].op
    ensures forall a :: a in actions ==> !a.Invoke?
  {
    hide Run, Perform;
    RunByNothing(s, p);
    RunBy(s, p, [], Probe);
    assert [] + [Probe] == [Probe];
    actions := [Probe];
    if !s.store.Absent? {
      RunBy(s, p, [Probe], Load);
      actions := [Probe] + [Load];
    }
  }

  /** The whole of a writing call made while the lock is free. */
  lemma SoloWrite(s: State, p: Pid, op: Op, token: Token, truth: Payload) returns (actions: seq<Action>)
    requires Idle(s, p) && s.lock.None? && Writes(op) && Malformed(op).None? && StoreIs(s.store, truth)
    ensures var t, effect := Run(s, By(p, [Invoke(op)] + actions)), Perform(truth, op);
            && At(t, p, Returned(Ok(effect.reply))) && t.procs[p].op == op && t.lock.None?
            && t.store == (if effect.reply == Done then Whole(effect.payload) else s.store)
    ensures forall a :: a in actions ==> !a.Invoke?
  {
    hide Run, Perform, Malformed, Writes, By;
    var enter := [Invoke(op), Create(token), StampLock];
    var inside := Run(s, By(p, enter));
    SoloEnter(s, p, op, token);
    var decide := SoloDecide(inside, p, truth);
    var decided := Run(inside, By(p, decide));
    RunByConcat(s, p, enter, decide);
    var before, sofar := decided, enter + decide;
    if Perform(truth, op).reply == Done {
      SoloSave(decided, p, Perform(truth, op).payload);
      RunByConcat(s, p, sofar, SAVE);
      before, sofar := Run(decided, By(p, SAVE)), sofar + SAVE;
    }
    SoloLeave(before, p, Ok(Perform(truth, op).reply));
    RunByConcat(s, p, sofar, LEAVE);
    actions := (sofar + LEAVE)[1..];
    assert [Invoke(op)] + actions == sofar + LEAVE;
  }

  lemma SoloReadNothing(s: State, p: Pid, op: Op)
    requires Idle(s, p) && !Writes(op) && Malformed(op).None? && s.store.Absent?
    ensures var t := Run(s, By(p, [Invoke(op), Seek]));
            && At(t, p, Returned(Ok(Perform(NEW_PAYLOAD, op).reply)))
            && t.procs[p].op == op && t.lock == s.lock && t.store == s.store
  {
    hide Run, Perform, Malformed, Writes;
    assert [] + [Invoke(op)] == [Invoke(op)] && [Invoke(op)] + [Seek] == [Invoke(op), Seek];
    RunByNothing(s, p);
    RunBy(s, p, [], Invoke(op));
    RunBy(s, p, [Invoke(op)], Seek);
  }

  lemma SoloReadOpened(s: State, p: Pid, op: Op)
    requires Idle(s, p) && !Writes(op) && Malformed(op).None? && s.store.Whole?
    ensures var t := Run(s, By(p, [Invoke(op), Seek, Open]));
            && At(t, p, Reading(s.store)) && t.procs[p].op == op && t.lock == s.lock && t.store == s.store
  {
    hide Run, Perform, Malformed, Writes;
    RunByThree(s, p, Invoke(op), Seek, Open);
  }

  lemma SoloRead(s: State, p: Pid, op: Op, truth: Payload) returns (actions: seq<Action>)
    requires Idle(s, p) && !Writes(op) && StoreIs(s.store, truth)
    ensures var t := Run(s, By(p, [Invoke(op)] + actions));
            && At(t, p, Returned(Ok(Perform(truth, op).reply)))
            && t.procs[p].op == op && t.lock == s.lock && t.store == s.store
    ensures forall a :: a in actions ==> !a.Invoke?
  {
    hide Run, Perform, Malformed, Writes, By;
    ReadersAreWellFormed(op);
    if s.store.Absent? {
      SoloReadNothing(s, p, op);
      actions := [Seek];
      assert [Invoke(op)] + actions == [Invoke(op), Seek];
    } else {
      SoloReadOpened(s, p, op);
      RunBy(s, p, [Invoke(op), Seek, Open], Read);
      actions := [Seek, Open, Read];
      assert [Invoke(op), Seek, Open] + [Read] == [Invoke(op)] + actions;
    }
  }

  lemma ReadersAreWellFormed(op: Op)
    ensures !Writes(op) ==> Malformed(op).None?
  {
  }

  lemma SoloRefused(s: State, p: Pid, op: Op, token: Token) returns (actions: seq<Action>)
    requires Idle(s, p) && Writes(op) && (Malformed(op).Some? || s.lock.Some?)
    ensures var t := Run(s, By(p, [Invoke(op)] + actions));
            && At(t, p, Returned(if Malformed(op).Some? then Ok(Malformed(op).value) else Err(Busy)))
            && t.procs[p].op == op && t.lock == s.lock && t.store == s.store
    ensures forall a :: a in actions ==> !a.Invoke?
  {
    hide Run, Perform, Malformed, Writes;
    RunByNothing(s, p);
    RunBy(s, p, [], Invoke(op));
    assert [] + [Invoke(op)] == [Invoke(op)] == [Invoke(op)] + [];
    actions := [];
    if Malformed(op).None? {
      RunBy(s, p, [Invoke(op)], Create(token));
      actions := [Create(token)];
    }
  }

  /**
   From every reachable state, a process that is then left alone completes any call with the atomic ledger's
   answer and leaves the ledger's payload in the file; a writing call is told that the lock is taken exactly when
   there is a lock file.
   */
  lemma SoloCallsComplete(schedule: seq<Step>, p: Pid, op: Op, token: Token) returns (actions: seq<Action>)
    requires Idle(Run(INITIAL, schedule), p)
    ensures forall a :: a in actions ==> !a.Invoke?
    ensures var s, t := Run(INITIAL, schedule), Run(Run(INITIAL, schedule), By(p, [Invoke(op)] + actions));
            SoloOutcome(s, t, p, op)
  {
    RunKeepsInv(schedule);
    hide Run;
    actions := SoloCallAt(Run(INITIAL, schedule), p, op, token);
  }

  predicate SoloOutcome(s: State, t: State, p: Pid, op: Op) {
    var effect := Perform(Truth(s.log), op);
    var busy := Writes(op) && Malformed(op).None? && s.lock.Some?;
    && At(t, p, Returned(if busy then Err(Busy) else Ok(effect.reply))) && t.procs[p].op == op && t.lock == s.lock
    && StoreIs(t.store, if busy then Truth(s.log) else effect.payload)
  }

  lemma SoloCallAt(s: State, p: Pid, op: Op, token: Token) returns (actions: seq<Action>)
    requires Inv(s) && Idle(s, p)
    ensures forall a :: a in actions ==> !a.Invoke?
    ensures SoloOutcome(s, Run(s, By(p, [Invoke(op)] + actions)), p, op)
  {
    hide Run, By, LockIsHeld, ProcOk, Legal, Truth;
    var truth := Truth(s.log);
    MalformedChangesNothing(truth, op);
    OnlyDoneWrites(truth, op);
    if !Writes(op) {
      actions := SoloRead(s, p, op, truth);
    } else if Malformed(op).Some? || s.lock.Some? {
      actions := SoloRefused(s, p, op, token);
    } else {
      actions := SoloWrite(s, p, op, token, truth);
    }
  }

  lemma OnlyDoneWrites(p: Payload, op: Op)
    ensures !Writes(op) || Perform(p, op).reply != Done ==> Perform(p, op).payload == p
  {
    if !Writes(op) || Perform(p, op).reply != Done {
      OnlyDoneChanges(p, op);
    }
  }

  // ---- Failing after the fact

  /**
   When a release fails, the operation is in the order exactly if its body had ended: the caller gets an error
   for something that took effect, or for something that did not, according to what it was about to answer.
   */
  lemma FailedReleaseExactly(schedule: seq<Step>, p: Pid)
    requires Next(Run(INITIAL, schedule), p, ReleaseFails).Some?
    ensures var s, t := Run(INITIAL, schedule), Next(Run(INITIAL, schedule), p, ReleaseFails).value;
            var body := Body(s.procs[p].pc.answer);
            && t.procs[p].pc == Returned(Err(ReleaseFailed(body)))
            && (body.Some? <==> exists i: nat :: IsEventOf(t, p, i))
            && (body.Some? ==> exists i: nat :: IsEventOf(t, p, i) && t.log[i] == Event(p, t.procs[p].op, body.value))
  {
    hide Run, Next, Inv, Explained, ProcOk, IsEventOf, OthersOk, OthersIdle, StoreIs, LockIsHeld, Legal;
    var s := Run(INITIAL, schedule);
    RunKeepsInv(schedule);
    LateStep(s, p);
    var t := Next(s, p, ReleaseFails).value;
    StepKeepsInv(s, p, ReleaseFails);
    Unpack(t, p);
    OkIsExplained(t, p);
    ExplainedCall(t, p);
  }

  lemma LateStep(s: State, p: Pid)
    ensures Next(s, p, ReleaseFails).Some? ==>
              var t := Next(s, p, ReleaseFails).value;
              p in s.procs && p in t.procs
              && t.procs[p].pc == Returned(Err(ReleaseFailed(Body(s.procs[p].pc.answer))))
    ensures Next(s, p, ReadFails).Some? ==>
              var t := Next(s, p, ReadFails).value;
              p in s.procs && p in t.procs && t.store == s.store
              && t.procs[p].pc == Returned(Err(ReadFailed(s.procs[p].pc.Reading?)))
  {
  }

  /** A read that fails is in the order exactly if it had opened the file; it changes nothing either way. */
  lemma FailedReadExactly(schedule: seq<Step>, p: Pid)
    requires Next(Run(INITIAL, schedule), p, ReadFails).Some?
    ensures var s, t := Run(INITIAL, schedule), Next(Run(INITIAL, schedule), p, ReadFails).value;
            && t.procs[p].pc.Returned? && t.procs[p].pc.answer.Err?
            && (s.procs[p].pc.Reading? <==> exists i: nat :: IsEventOf(t, p, i))
            && t.store == s.store
  {
    hide Run, Next, Inv, Explained, ProcOk, IsEventOf, OthersOk, OthersIdle, StoreIs, LockIsHeld, Legal;
    var s := Run(INITIAL, schedule);
    RunKeepsInv(schedule);
    LateStep(s, p);
    var t := Next(s, p, ReadFails).value;
    StepKeepsInv(s, p, ReadFails);
    Unpack(t, p);
    OkIsExplained(t, p);
    ExplainedCall(t, p);
  }

  lemma ExplainedCall(s: State, p: Pid)
    requires p in s.procs && Explained(s, p) && s.procs[p].pc.Returned?
    ensures var answer := s.procs[p].pc.answer;
            && (TookEffect(answer) <==> exists i: nat :: IsEventOf(s, p, i))
            && (Body(answer).Some? ==>
                  exists i: nat :: IsEventOf(s, p, i) && s.log[i] == Event(p, s.procs[p].op, Body(answer).value))
  {
  }

  /** One process records a candidate; its release fails after the rename. */
  function LateFailure(r: Record): seq<Step> {
    [Step(0, Invoke(RecordCandidate(r))), Step(0, Create(0)), Step(0, StampLock), Step(0, Probe), Step(0, OpenTemp),
     Step(0, FlushTemp), Step(0, Replace), Step(0, ReleaseFails)]
  }

  lemma RunSnoc(init: seq<Step>, step: Step)
    requires Next(Run(INITIAL, init), step.pid, step.action).Some?
    ensures Run(INITIAL, init + [step]) == Next(Run(INITIAL, init), step.pid, step.action).value
  {
    assert (init + [step])[..|init|] == init;
  }

  lemma RunOne(schedule: seq<Step>, n: nat)
    requires n < |schedule|
    requires Next(Run(INITIAL, schedule[..n]), schedule[n].pid, schedule[n].action).Some?
    ensures Run(INITIAL, schedule[..n + 1])
            == Next(Run(INITIAL, schedule[..n]), schedule[n].pid, schedule[n].action).value
  {
    RunSnoc(schedule[..n], schedule[n]);
    assert schedule[..n + 1] == schedule[..n] + [schedule[n]];
  }

  lemma LateFailureEnters(r: Record)
    requires r.signature != ""
    ensures Run(INITIAL, LateFailure(r)[..2])
            == State(Some(LockFile(None, Some(0))), Absent, Absent,
                     map[0 := Proc(RecordCandidate(r), 0, Created, 0, None)], {}, [])
  {
    hide Run, Perform, Malformed;
    var all := LateFailure(r);
    NewCandidate(r);
    RunNothing();
    assert all[..0] == [];
    RunOne(all, 0);
    RunOne(all, 1);
  }

  lemma LateFailurePrepares(r: Record)
    requires r.signature != ""
    ensures Run(INITIAL, LateFailure(r)[..4])
            == State(Some(LockFile(Some(0), Some(0))), Absent, Absent,
                     map[0 := Proc(RecordCandidate(r), 0, Prepared(NEW_PAYLOAD.(records := [r])), 0, None)], {}, [])
  {
    hide Run, Perform, Malformed;
    var all := LateFailure(r);
    NewCandidate(r);
    LateFailureEnters(r);
    RunOne(all, 2);
    RunOne(all, 3);
  }

  /** The candidate is in the file, and in the order, and the caller is told that the call failed. */
  lemma RecordedButReportedAsError(r: Record)
    requires r.signature != ""
    ensures var s := Run(INITIAL, LateFailure(r));
            && 0 in s.procs && s.procs[0].pc == Returned(Err(ReleaseFailed(Some(Done))))
            && s.log == [Event(0, RecordCandidate(r), Done)]
            && s.store == Whole(NEW_PAYLOAD.(records := [r]))
  {
    hide Run, Perform, Malformed;
    var all := LateFailure(r);
    LateFailurePrepares(r);
    RunOne(all, 4);
    RunOne(all, 5);
    RunOne(all, 6);
    RunOne(all, 7);
    assert all[..8] == all;
  }

  lemma RunNothing()
    ensures Run(INITIAL, []) == INITIAL
  {
  }

  lemma NewCandidate(r: Record)
    requires r.signature != ""
    ensures Malformed(RecordCandidate(r)).None?
    ensures Perform(NEW_PAYLOAD, RecordCandidate(r)) == Effect(NEW_PAYLOAD.(records := [r]), Done)
  {
  }

  // ---- Real-time order

  predicate NotInvoked(more: seq<Step>, q: Pid) {
    forall k :: 0 <= k < |more| && more[k].pid == q ==> !more[k].action.Invoke?
  }

  lemma StepKeepsCall(s: State, p: Pid, a: Action, q: Pid)
    requires q in s.procs && Next(s, p, a).Some? && (p == q ==> !a.Invoke?)
    ensures var t := Next(s, p, a).value;
            q in t.procs && t.procs[q].op == s.procs[q].op && t.procs[q].invokedAt == s.procs[q].invokedAt
  {
    hide Perform, Malformed;
  }

  lemma {:induction false} RunKeepsCall(s: State, more: seq<Step>, q: Pid)
    requires q in s.procs && NotInvoked(more, q)
    ensures var t := Run(s, more);
            q in t.procs && t.procs[q].op == s.procs[q].op && t.procs[q].invokedAt == s.procs[q].invokedAt
    decreases |more|
  {
    hide Next;
    if more != [] {
      var init, step := more[..|more| - 1], more[|more| - 1];
      RunKeepsCall(s, init, q);
      if Next(Run(s, init), step.pid, step.action).Some? {
        StepKeepsCall(Run(s, init), step.pid, step.action, q);
      }
    }
  }

  /**
   The order respects real time: of two operations whose bodies ended, whatever became of the calls, one whose call
   was over before the other was called comes first.
   */
  lemma AnsweredBeforeCalledComesFirst(before: seq<Step>, p: Pid, q: Pid, op: Op, more: seq<Step>)
    returns (i: nat, j: nat)
    requires var s := Run(INITIAL, before);
             && p in s.procs && s.procs[p].pc.Returned? && Body(s.procs[p].pc.answer).Some?
             && Next(s, q, Invoke(op)).Some?
    requires NotInvoked(more, q)
    requires var t := Run(INITIAL, before + [Step(q, Invoke(op))] + more);
             q in t.procs && t.procs[q].pc.Returned? && Body(t.procs[q].pc.answer).Some?
    ensures var s, t := Run(INITIAL, before), Run(INITIAL, before + [Step(q, Invoke(op))] + more);
            && i < j < |t.log|
            && t.log[i] == Event(p, s.procs[p].op, Body(s.procs[p].pc.answer).value)
            && t.log[j] == Event(q, op, Body(t.procs[q].pc.answer).value)
  {
    hide Run, Next, Truth, Legal, StoreIs, Explained, Body, NotInvoked;
    var s, called := Run(INITIAL, before), before + [Step(q, Invoke(op))];
    var u := Run(INITIAL, called);
    CallIsPlaced(before, q, op);
    RunConcat(INITIAL, called, more);
    RunKeepsCall(u, more, q);
    LogOnlyGrows(u, more);
    Linearizable(before);
    Linearizable(called + more);
    var t := Run(INITIAL, called + more);
    ExplainedCall(s, p);
    ExplainedCall(t, q);
    i :| IsEventOf(s, p, i) && s.log[i] == Event(p, s.procs[p].op, Body(s.procs[p].pc.answer).value);
    j :| IsEventOf(t, q, j) && t.log[j] == Event(q, t.procs[q].op, Body(t.procs[q].pc.answer).value);
  }

  lemma CallIsPlaced(before: seq<Step>, q: Pid, op: Op)
    requires Next(Run(INITIAL, before), q, Invoke(op)).Some?
    ensures var s, u := Run(INITIAL, before), Run(INITIAL, before + [Step(q, Invoke(op))]);
            s.log <= u.log && q in u.procs && u.procs[q].op == op && u.procs[q].invokedAt == |s.log|
  {
    var step := Step(q, Invoke(op));
    assert (before + [step])[..|before|] == before;
    assert Run(INITIAL, before + [step]) == Next(Run(INITIAL, before), q, Invoke(op)).value;
    hide Run, Malformed;
  }

  lemma PrefixIsPast(log: seq<Event>, i: nat)
    requires i <= |log|
    ensures Truth(log[..i]).records <= Truth(log).records && Truth(log[..i]).runtime <= Truth(log).runtime
  {
    hide After;
    assert log == log[..i] + log[i..];
    OpsOfConcat(log[..i], log[i..]);
    LedgerOnlyGrows(OpsOf(log[..i]), OpsOf(log[i..]));
  }

  lemma AnswerComesFromALedger(s: State, p: Pid) returns (i: nat)
    requires Inv(s) && p in s.procs && s.procs[p].pc.Returned? && s.procs[p].pc.answer.Ok?
    ensures i <= |s.log| && s.procs[p].pc.answer.value == Perform(Truth(s.log[..i]), s.procs[p].op).reply
  {
    hide Truth, Perform, Legal, StoreIs, Once, OthersOk, OthersIdle, Malformed, Writes;
    Unpack(s, p);
    hide Inv;
    i := s.procs[p].event.value;
    LegalAt(s.log, i);
  }

  predicate PromotionClaims(p: Payload) {
    |Signatures(p.records)| >= 100 && WalletNet(p.records) > 0 && p.runtime >= 72 * HOUR - 1800
  }

  /** The gate's claims held at a point of the order whose candidates and runtime the present ledger keeps. */
  ghost predicate Earned(log: seq<Event>) {
    exists i :: 0 <= i <= |log|
      && PromotionClaims(Truth(log[..i]))
      && Truth(log[..i]).records <= Truth(log).records
      && Truth(log[..i]).runtime <= Truth(log).runtime
  }

  lemma ReadyReportIsEarnedAt(s: State, p: Pid, summary: Summary, hours: real)
    requires Inv(s) && p in s.procs && s.procs[p].pc == Returned(Ok(Report(summary)))
    requires RoundsToHours(summary.runtime, hours) && Ready(summary, hours, 72.0, 100)
    ensures Earned(s.log)
  {
    hide Inv, After, Signatures, WalletNet;
    var i := AnswerComesFromALedger(s, p);
    PrefixIsPast(s.log, i);
    ReadyMeansProven(OpsOf(s.log[..i]), hours);
    assert PromotionClaims(Truth(s.log[..i]));
  }

  /**
   A process whose summary passes the promotion gate saw a point of the agreed order at which the gate's
   claims were true, and every later file still has as many candidates and as much runtime.
   */
  lemma ReadyReportIsEarned(schedule: seq<Step>, p: Pid, summary: Summary, hours: real)
    requires var s := Run(INITIAL, schedule);
             p in s.procs && s.procs[p].pc == Returned(Ok(Report(summary)))
    requires RoundsToHours(summary.runtime, hours) && Ready(summary, hours, 72.0, 100)
    ensures Earned(Run(INITIAL, schedule).log)
  {
    RunKeepsInv(schedule);
    hide Run, Inv, Earned;
    ReadyReportIsEarnedAt(Run(INITIAL, schedule), p, summary, hours);
  }
}
