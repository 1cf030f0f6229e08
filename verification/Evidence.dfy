/**
 The shadow-evidence ledger as one atomic object (backrunner/coordination.py): what each operation
 answers and does to the payload, and what any sequence of operations adds up to.
 Times are integer microseconds, the resolution of the source's timestamps.
 */
module Evidence {
  import opened Wrappers

  datatype Instant = Instant(micros: int, aware: bool)

  datatype Record = Record(
    signature: string,
    observedAt: Instant,
    simulationSlot: int,
    succeeded: bool,
    walletNet: int,
    rejectionReasons: seq<string>)

  datatype Payload = Payload(runtime: nat, lastHeartbeat: Option<int>, records: seq<Record>)

  const NEW_PAYLOAD: Payload := Payload(0, None, [])

  datatype Op =
    | RecordCandidate(record: Record)
    | Heartbeat(at: Instant, maximumGap: int)
    | Contains(signature: string)
    | Summarize

  datatype Summary = Summary(startedAt: Option<int>, runtime: nat, candidates: nat, succeeded: nat, walletNet: int)

  datatype Reply =
    | Done
    | EmptySignature
    | DuplicateCandidate
    | NaiveTimestamp
    | GapNotPositive
    | MovedBackwards
    | Found(present: bool)
    | Report(summary: Summary)

  predicate HasSignature(records: seq<Record>, signature: string) {
    exists i :: 0 <= i < |records| && records[i].signature == signature
  }

  function Succeeded(records: seq<Record>): nat {
    if records == [] then 0
    else Succeeded(records[..|records| - 1]) + (if records[|records| - 1].succeeded then 1 else 0)
  }

  function WalletNet(records: seq<Record>): int {
    if records == [] then 0 else WalletNet(records[..|records| - 1]) + records[|records| - 1].walletNet
  }

  function Earliest(records: seq<Record>): Option<int> {
    if records == [] then None
    else
      var (before, last) := (Earliest(records[..|records| - 1]), records[|records| - 1].observedAt.micros);
      if before.Some? && before.value <= last then before else Some(last)
  }

  function SummaryOf(p: Payload): Reply {
    if exists i :: 0 <= i < |p.records| && !p.records[i].observedAt.aware then NaiveTimestamp
    else Report(Summary(Earliest(p.records), p.runtime, |p.records|, Succeeded(p.records), WalletNet(p.records)))
  }

  /** Refusals that need no look at the payload: the source raises them before taking the lock. */
  function Malformed(op: Op): Option<Reply> {
    match op
    case RecordCandidate(record) => if record.signature == "" then Some(EmptySignature) else None
    case Heartbeat(at, maximumGap) =>
      if !at.aware then Some(NaiveTimestamp) else if maximumGap <= 0 then Some(GapNotPositive) else None
    case _ => None
  }

  predicate Writes(op: Op) {
    op.RecordCandidate? || op.Heartbeat?
  }

  datatype Effect = Effect(payload: Payload, reply: Reply)

  /** One operation, done in one step. */
  function Perform(p: Payload, op: Op): Effect {
    if Malformed(op).Some? then Effect(p, Malformed(op).value)
    else
      match op
      case RecordCandidate(record) =>
        if HasSignature(p.records, record.signature) then Effect(p, DuplicateCandidate)
        else Effect(p.(records := p.records + [record]), Done)
      case Heartbeat(at, maximumGap) =>
        if p.lastHeartbeat.None? then Effect(p.(lastHeartbeat := Some(at.micros)), Done)
        else
          var elapsed := at.micros - p.lastHeartbeat.value;
          if elapsed < 0 then Effect(p, MovedBackwards)
          else
            Effect(p.(runtime := p.runtime + (if elapsed <= maximumGap then elapsed else 0),
                      lastHeartbeat := Some(at.micros)), Done)
      case Contains(signature) => Effect(p, Found(HasSignature(p.records, signature)))
      case Summarize => Effect(p, SummaryOf(p))
  }

  /** The payload after a list of operations, from an empty ledger. */
  function After(ops: seq<Op>): Payload {
    if ops == [] then NEW_PAYLOAD else Perform(After(ops[..|ops| - 1]), ops[|ops| - 1]).payload
  }

  // ---- Signatures

  predicate DistinctSignatures(records: seq<Record>) {
    && (forall i :: 0 <= i < |records| ==> records[i].signature != "")
    && forall i, j :: 0 <= i < j < |records| ==> records[i].signature != records[j].signature
  }

  function Signatures(records: seq<Record>): set<string> {
    set i | 0 <= i < |records| :: records[i].signature
  }

  lemma {:induction false} SignaturesStayDistinct(ops: seq<Op>)
    ensures DistinctSignatures(After(ops).records)
    decreases |ops|
  {
    if ops != [] {
      SignaturesStayDistinct(ops[..|ops| - 1]);
    }
  }

  lemma SignaturesOfAppend(init: seq<Record>, last: Record)
    ensures Signatures(init + [last]) == Signatures(init) + {last.signature}
  {
    var records := init + [last];
    assert records[|init|] == last;
    assert forall i :: 0 <= i < |init| ==> records[i] == init[i];
    assert forall i :: 0 <= i < |init| ==> records[i].signature in Signatures(records);
  }

  lemma {:induction false} DistinctSignaturesCount(records: seq<Record>)
    requires DistinctSignatures(records)
    ensures |Signatures(records)| == |records|
    decreases |records|
  {
    if records != [] {
      var init, last := records[..|records| - 1], records[|records| - 1];
      assert init + [last] == records;
      DistinctSignaturesCount(init);
      SignaturesOfAppend(init, last);
    }
  }

  /** The lookup finds exactly the signatures recorded. */
  lemma FoundExactly(records: seq<Record>, signature: string)
    ensures HasSignature(records, signature) <==> signature in Signatures(records)
  {
  }

  /** Nothing recorded is lost, and neither the count nor the runtime ever goes down. */
  lemma {:induction false} LedgerOnlyGrows(ops: seq<Op>, more: seq<Op>)
    ensures After(ops).records <= After(ops + more).records
    ensures After(ops).runtime <= After(ops + more).runtime
    decreases |more|
  {
    if more == [] {
      assert ops + more == ops;
    } else {
      var init := more[..|more| - 1];
      assert (ops + more)[..|ops + more| - 1] == ops + init;
      LedgerOnlyGrows(ops, init);
    }
  }

  /** The records whose operation answered `Done`, in order. */
  function Accepted(ops: seq<Op>): seq<Record> {
    if ops == [] then []
    else
      var init, last := ops[..|ops| - 1], ops[|ops| - 1];
      if last.RecordCandidate? && Perform(After(init), last).reply == Done then Accepted(init) + [last.record]
      else Accepted(init)
  }

  /** The file holds exactly the accepted records; each was new when accepted and is found ever after. */
  lemma {:induction false} RecordsAreTheAccepted(ops: seq<Op>)
    ensures After(ops).records == Accepted(ops)
    ensures forall r: Record :: r.signature != "" ==>
              (Perform(After(ops), RecordCandidate(r)).reply == Done
               <==> Perform(After(ops), Contains(r.signature)).reply == Found(false))
    ensures forall r :: r in Accepted(ops) ==> Perform(After(ops), Contains(r.signature)).reply == Found(true)
    decreases |ops|
  {
    if ops != [] {
      RecordsAreTheAccepted(ops[..|ops| - 1]);
    }
  }

  /** The reported start is the earliest observation. */
  lemma {:induction false} EarliestIsLeast(records: seq<Record>)
    ensures Earliest(records).None? <==> records == []
    ensures forall i :: 0 <= i < |records| ==> Earliest(records).value <= records[i].observedAt.micros
    ensures records != [] ==> exists i :: 0 <= i < |records| && records[i].observedAt.micros == Earliest(records).value
    decreases |records|
  {
    if records != [] {
      var n := |records| - 1;
      EarliestIsLeast(records[..n]);
      assert records[n].observedAt.micros == Earliest(records).value || Earliest(records) == Earliest(records[..n]);
    }
  }

  /** The net is the sum of the records' nets, gains and losses alike. */
  lemma {:induction false} NetIsTheSum(a: seq<Record>, b: seq<Record>, r: Record)
    ensures WalletNet([]) == 0 && WalletNet([r]) == r.walletNet
    ensures WalletNet(a + b) == WalletNet(a) + WalletNet(b)
    decreases |b|
  {
    assert [r][..0] == [];
    if b == [] {
      assert a + b == a;
    } else {
      assert (a + b)[..|a + b| - 1] == a + b[..|b| - 1];
      NetIsTheSum(a, b[..|b| - 1], r);
    }
  }

  function SucceededAt(records: seq<Record>): set<nat> {
    set i: nat | i < |records| && records[i].succeeded
  }

  /** The success count is the number of records whose simulation succeeded. */
  lemma {:induction false} SucceededCounts(records: seq<Record>)
    ensures Succeeded(records) == |SucceededAt(records)|
    decreases |records|
  {
    if records == [] {
      assert SucceededAt(records) == {};
    } else {
      var n := |records| - 1;
      SucceededCounts(records[..n]);
      assert SucceededAt(records) == SucceededAt(records[..n]) + (if records[n].succeeded then {n} else {});
      assert n !in SucceededAt(records[..n]);
    }
  }

  // ---- What each operation answers and does

  /** One candidate on any payload, by the signatures in it. */
  lemma CandidateStep(p: Payload, r: Record)
    ensures var effect := Perform(p, RecordCandidate(r));
            && effect.reply == (if r.signature == "" then EmptySignature
                                else if r.signature in Signatures(p.records) then DuplicateCandidate
                                else Done)
            && effect.payload == (if effect.reply == Done then p.(records := p.records + [r]) else p)
    ensures Perform(p, Contains(r.signature)) == Effect(p, Found(r.signature in Signatures(p.records)))
  {
    FoundExactly(p.records, r.signature);
    hide HasSignature, Signatures;
  }

  /**
   A candidate: refused without a signature, refused if some accepted record has the same one, and otherwise added
   to the accepted records. A lookup answers whether some accepted record has the signature.
   */
  lemma CandidatesExactly(ops: seq<Op>, r: Record)
    ensures var effect := Perform(After(ops), RecordCandidate(r));
            && effect.reply == (if r.signature == "" then EmptySignature
                                else if exists a :: a in Accepted(ops) && a.signature == r.signature
                                then DuplicateCandidate
                                else Done)
            && effect.payload
               == (if effect.reply == Done then After(ops).(records := Accepted(ops) + [r]) else After(ops))
    ensures Perform(After(ops), Contains(r.signature))
            == Effect(After(ops), Found(exists a :: a in Accepted(ops) && a.signature == r.signature))
  {
    RecordsAreTheAccepted(ops);
    hide After, Accepted;
    var records := Accepted(ops);
    if a :| a in records && a.signature == r.signature {
      var i :| 0 <= i < |records| && records[i] == a;
      assert HasSignature(records, r.signature);
    }
    if HasSignature(records, r.signature) {
      var i :| 0 <= i < |records| && records[i].signature == r.signature;
      assert records[i] in records;
    }
  }

  /**
   A heartbeat: refused without a timezone, with a gap limit that is not positive, or from before the last one;
   otherwise it becomes the last one, and the time since then counts if and only if it is within the limit.
   */
  lemma HeartbeatsExactly(p: Payload, at: Instant, maximumGap: int)
    ensures var effect := Perform(p, Heartbeat(at, maximumGap));
            var backwards := p.lastHeartbeat.Some? && at.micros < p.lastHeartbeat.value;
            && effect.reply == (if !at.aware then NaiveTimestamp
                                else if maximumGap <= 0 then GapNotPositive
                                else if backwards then MovedBackwards
                                else Done)
            && (effect.reply != Done ==> effect.payload == p)
            && (effect.reply == Done ==>
                  && effect.payload.records == p.records && effect.payload.lastHeartbeat == Some(at.micros)
                  && effect.payload.runtime
                     == p.runtime + (if p.lastHeartbeat.Some? && at.micros <= p.lastHeartbeat.value + maximumGap
                                     then at.micros - p.lastHeartbeat.value else 0))
  {
  }

  /** A summary: refused if some record lacks a timezone; otherwise five figures over the accepted records and beats. */
  lemma SummariesExactly(ops: seq<Op>)
    ensures var effect, records := Perform(After(ops), Summarize), Accepted(ops);
            && effect.payload == After(ops)
            && (effect.reply == NaiveTimestamp <==> exists r :: r in records && !r.observedAt.aware)
            && (effect.reply != NaiveTimestamp ==>
                  && effect.reply.Report?
                  && var s := effect.reply.summary;
                  && s.candidates == |records| && s.runtime == Covered(Beats(ops))
                  && s.succeeded == |SucceededAt(records)| && s.walletNet == WalletNet(records)
                  && (s.startedAt.None? <==> records == [])
                  && (forall r :: r in records ==> s.startedAt.value <= r.observedAt.micros)
                  && (records != [] ==> exists r :: r in records && r.observedAt.micros == s.startedAt.value))
  {
    RecordsAreTheAccepted(ops);
    RuntimeIsCovered(ops);
    var records := Accepted(ops);
    SucceededCounts(records);
    EarliestIsLeast(records);
    hide After, Accepted, Beats, Covered, WalletNet, Succeeded, SucceededAt, Earliest;
    if exists i :: 0 <= i < |records| && !records[i].observedAt.aware {
      var i :| 0 <= i < |records| && !records[i].observedAt.aware;
      assert records[i] in records;
    }
    if r :| r in records && !r.observedAt.aware {
      var i :| 0 <= i < |records| && records[i] == r;
      assert !records[i].observedAt.aware;
    }
    if records != [] {
      var i :| 0 <= i < |records| && records[i].observedAt.micros == Earliest(records).value;
      assert records[i] in records;
    }
  }

  // ---- Runtime

  datatype Beat = Beat(at: int, maximumGap: int)

  /** The heartbeats that were accepted, in order. */
  function Beats(ops: seq<Op>): seq<Beat> {
    if ops == [] then []
    else
      var init, last := ops[..|ops| - 1], ops[|ops| - 1];
      if last.Heartbeat? && Perform(After(init), last).reply == Done
      then Beats(init) + [Beat(last.at.micros, last.maximumGap)]
      else Beats(init)
  }

  /** The time covered: consecutive gaps no longer than the later beat allows. */
  function Covered(beats: seq<Beat>): int {
    if |beats| < 2 then 0
    else
      var last := beats[|beats| - 1];
      var gap := last.at - beats[|beats| - 2].at;
      Covered(beats[..|beats| - 1]) + (if gap <= last.maximumGap then gap else 0)
  }

  predicate Ordered(beats: seq<Beat>) {
    forall i, j :: 0 <= i <= j < |beats| ==> beats[i].at <= beats[j].at
  }

  lemma OrderedAppend(beats: seq<Beat>, last: Beat)
    ensures Ordered(beats + [last]) <==> Ordered(beats) && (beats == [] || beats[|beats| - 1].at <= last.at)
  {
    if Ordered(beats + [last]) {
      assert forall i :: 0 <= i < |beats| ==> (beats + [last])[i] == beats[i];
      assert (beats + [last])[|beats|] == last;
    }
  }

  /** What one operation does to the runtime: only an accepted heartbeat counts. */
  lemma RuntimeStep(p: Payload, op: Op)
    ensures var effect := Perform(p, op);
            if op.Heartbeat? && effect.reply == Done then
              && op.maximumGap > 0 && effect.payload.lastHeartbeat == Some(op.at.micros)
              && match p.lastHeartbeat
                 case None => effect.payload.runtime == p.runtime
                 case Some(last) =>
                   var gap := op.at.micros - last;
                   gap >= 0 && effect.payload.runtime == p.runtime + if gap <= op.maximumGap then gap else 0
            else effect.payload.runtime == p.runtime && effect.payload.lastHeartbeat == p.lastHeartbeat
  {
    hide HasSignature, SummaryOf;
  }

  lemma CoveredAppend(beats: seq<Beat>, last: Beat)
    ensures Covered(beats + [last]) ==
            if beats == [] then 0
            else var gap := last.at - beats[|beats| - 1].at; Covered(beats) + if gap <= last.maximumGap then gap else 0
  {
    assert (beats + [last])[..|beats|] == beats;
  }

  /** The payload's runtime and last heartbeat are those of the accepted heartbeats. */
  predicate RuntimeAgrees(p: Payload, beats: seq<Beat>) {
    && p.runtime == Covered(beats)
    && Ordered(beats)
    && p.lastHeartbeat == (if beats == [] then None else Some(beats[|beats| - 1].at))
    && forall i :: 0 <= i < |beats| ==> beats[i].maximumGap > 0
  }

  lemma AgreementStays(p: Payload, beats: seq<Beat>, op: Op)
    requires RuntimeAgrees(p, beats)
    ensures var effect := Perform(p, op);
            RuntimeAgrees(effect.payload,
                          if op.Heartbeat? && effect.reply == Done then beats + [Beat(op.at.micros, op.maximumGap)]
                          else beats)
  {
    assert Covered([]) == 0;
    hide Perform, Covered, Ordered;
    RuntimeStep(p, op);
    if op.Heartbeat? && Perform(p, op).reply == Done {
      var beat := Beat(op.at.micros, op.maximumGap);
      CoveredAppend(beats, beat);
      OrderedAppend(beats, beat);
    }
  }

  /** After any operations, the runtime is exactly the covered time of the accepted heartbeats. */
  lemma {:induction false} RuntimeIsCovered(ops: seq<Op>)
    ensures RuntimeAgrees(After(ops), Beats(ops))
    decreases |ops|
  {
    if ops == [] {
      return;
    }
    hide Perform, RuntimeAgrees;
    var init, last := ops[..|ops| - 1], ops[|ops| - 1];
    RuntimeIsCovered(init);
    AgreementStays(After(init), Beats(init), last);
  }

  lemma {:induction false} CoveredWithinSpan(beats: seq<Beat>)
    requires Ordered(beats) && |beats| > 0
    ensures 0 <= Covered(beats) <= beats[|beats| - 1].at - beats[0].at
    decreases |beats|
  {
    if |beats| >= 2 {
      var init := beats[..|beats| - 1];
      assert Ordered(init);
      CoveredWithinSpan(init);
      assert beats[|beats| - 2].at <= beats[|beats| - 1].at;
    }
  }

  lemma {:induction false} CoveredPerGap(beats: seq<Beat>, g: nat)
    requires Ordered(beats) && |beats| > 0
    requires forall i :: 0 <= i < |beats| ==> beats[i].maximumGap <= g
    ensures Covered(beats) <= (|beats| - 1) * g
    decreases |beats|
  {
    if |beats| >= 2 {
      CoveredPerGap(beats[..|beats| - 1], g);
      assert (|beats| - 1) * g == (|beats| - 2) * g + g;
    }
  }

  /** Runtime never exceeds the campaign's length, nor the allowance of its heartbeats. */
  lemma RuntimeBounds(ops: seq<Op>, g: nat)
    requires |Beats(ops)| > 0
    requires forall i :: 0 <= i < |Beats(ops)| ==> Beats(ops)[i].maximumGap <= g
    ensures var beats := Beats(ops);
            && After(ops).runtime <= beats[|beats| - 1].at - beats[0].at
            && After(ops).runtime <= (|beats| - 1) * g
  {
    RuntimeIsCovered(ops);
    CoveredWithinSpan(Beats(ops));
    CoveredPerGap(Beats(ops), g);
  }

  predicate Uniform(beats: seq<Beat>, g: int) {
    forall i :: 0 <= i < |beats| ==> beats[i].maximumGap == g
  }

  lemma {:induction false} CoveredSplit(a: seq<Beat>, b: seq<Beat>)
    requires |a| > 0 && |b| > 0
    ensures Covered(a + b) == Covered(a) + Covered([a[|a| - 1]] + b)
    decreases |b|
  {
    var last := a[|a| - 1];
    if |b| == 1 {
      assert (a + b)[..|a + b| - 1] == a;
      assert ([last] + b)[..1] == [last];
    } else {
      var init := b[..|b| - 1];
      assert (a + b)[..|a + b| - 1] == a + init;
      assert ([last] + b)[..|b|] == [last] + init;
      CoveredSplit(a, init);
    }
  }

  lemma CoveredPair(x: Beat, y: Beat, b: seq<Beat>)
    ensures Covered([x, y]) == (if y.at - x.at <= y.maximumGap then y.at - x.at else 0)
    ensures [x] + ([y] + b) == [x, y] + b
    ensures b != [] ==> Covered([x, y] + b) == Covered([x, y]) + Covered([y] + b)
  {
    assert [x, y][..1] == [x];
    if b != [] {
      CoveredSplit([x, y], b);
    }
  }

  /** The gap across `before`..`next` is covered no better than its two halves. */
  lemma ExtraBeatBetween(a: seq<Beat>, before: Beat, x: Beat, next: Beat, rest: seq<Beat>)
    requires before.at <= x.at <= next.at && x.maximumGap == next.maximumGap
    ensures Covered((a + [before]) + ([next] + rest)) <= Covered((a + [before]) + ([x] + ([next] + rest)))
  {
    var b := [next] + rest;
    assert (a + [before])[|a + [before]| - 1] == before;
    CoveredSplit(a + [before], b);
    CoveredSplit(a + [before], [x] + b);
    CoveredPair(before, next, rest);
    CoveredPair(before, x, b);
    CoveredPair(x, next, rest);
    if rest == [] {
      assert [before] + b == [before, next] && [x] + b == [x, next];
    }
  }

  lemma ExtraBeatFirst(x: Beat, b: seq<Beat>)
    requires b != [] ==> x.at <= b[0].at
    ensures Covered(b) <= Covered([x] + b)
  {
    if b != [] {
      CoveredPair(x, b[0], b[1..]);
      assert b == [b[0]] + b[1..];
      if b[1..] == [] {
        assert b == [b[0]] && [x] + b == [x, b[0]];
      }
    }
  }

  /** With one gap bound, an extra heartbeat anywhere never lowers the covered time. */
  lemma ExtraBeatNeverLowers(a: seq<Beat>, x: Beat, b: seq<Beat>, g: nat)
    requires Ordered(a + [x] + b) && Uniform(a + [x] + b, g)
    ensures Covered(a + b) <= Covered(a + [x] + b)
  {
    hide Covered;
    var all := a + [x] + b;
    assert all[|a|] == x;
    if a == [] {
      assert all == [x] + b && a + b == b;
      assert b != [] ==> all[1] == b[0];
      ExtraBeatFirst(x, b);
    } else if b == [] {
      assert all == a + [x] && a + b == a;
      ExtraBeatLast(a, x);
    } else {
      var init, before := a[..|a| - 1], a[|a| - 1];
      assert all[|a| - 1] == before && all[|a| + 1] == b[0];
      assert a == init + [before] && b == [b[0]] + b[1..] && all == a + ([x] + b);
      ExtraBeatBetween(init, before, x, b[0], b[1..]);
    }
  }

  lemma ExtraBeatLast(a: seq<Beat>, x: Beat)
    requires a != [] && Ordered(a + [x])
    ensures Covered(a) <= Covered(a + [x])
  {
    var all := a + [x];
    assert all[..|a|] == a && all[|a|] == x && all[|a| - 1] == a[|a| - 1];
  }

  lemma BackwardsIsRefused(p: Payload, at: Instant, maximumGap: int)
    requires p.lastHeartbeat.Some? && at.micros < p.lastHeartbeat.value
    ensures Perform(p, Heartbeat(at, maximumGap)).payload == p && Perform(p, Heartbeat(at, maximumGap)).reply != Done
  {
  }

  /** A heartbeat from the past changes nothing. */
  lemma BackwardsHeartbeatChangesNothing(ops: seq<Op>, at: Instant, maximumGap: int)
    requires |Beats(ops)| > 0 && at.micros < Beats(ops)[|Beats(ops)| - 1].at
    ensures After(ops + [Heartbeat(at, maximumGap)]) == After(ops)
    ensures Beats(ops + [Heartbeat(at, maximumGap)]) == Beats(ops)
  {
    hide Perform, Covered, Ordered;
    RuntimeIsCovered(ops);
    BackwardsIsRefused(After(ops), at, maximumGap);
    assert (ops + [Heartbeat(at, maximumGap)])[..|ops|] == ops;
  }

  // ---- The promotion gate

  const HOUR: nat := 3_600_000_000

  function Millionths(n: int): real {
    n as real / 1000000.0
  }

  /** `hours` is the runtime in hours rounded to six decimals, ties either way. */
  ghost predicate RoundsToHours(runtime: nat, hours: real) {
    && -0.0000005 <= runtime as real / HOUR as real - hours <= 0.0000005
    && exists n: int :: hours == Millionths(n)
  }

  predicate Ready(s: Summary, hours: real, minimumHours: real, minimumCandidates: int) {
    hours >= minimumHours && s.candidates >= minimumCandidates && s.walletNet > 0
  }

  /** Being ready at 72 hours and 100 candidates means what it says on every reachable ledger. */
  lemma ReadyMeansProven(ops: seq<Op>, hours: real)
    requires SummaryOf(After(ops)).Report?
    requires RoundsToHours(After(ops).runtime, hours)
    requires Ready(SummaryOf(After(ops)).summary, hours, 72.0, 100)
    ensures |Signatures(After(ops).records)| >= 100
    ensures WalletNet(After(ops).records) > 0
    ensures After(ops).runtime >= 72 * HOUR - 1800
    ensures (forall i :: 0 <= i < |Beats(ops)| ==> Beats(ops)[i].maximumGap <= 120_000_000) ==> |Beats(ops)| >= 2161
  {
    SignaturesStayDistinct(ops);
    DistinctSignaturesCount(After(ops).records);
    RuntimeIsCovered(ops);
    var runtime := After(ops).runtime;
    assert runtime as real >= (72.0 - 0.0000005) * 3_600_000_000.0;
    assert |Beats(ops)| > 0;
    if forall i :: 0 <= i < |Beats(ops)| ==> Beats(ops)[i].maximumGap <= 120_000_000 {
      RuntimeBounds(ops, 120_000_000);
    }
  }

  /** And the other way: a ledger with 72 hours, 100 candidates and a positive net is ready however it is rounded. */
  lemma ProvenMeansReady(ops: seq<Op>, hours: real)
    requires SummaryOf(After(ops)).Report? && RoundsToHours(After(ops).runtime, hours)
    requires Covered(Beats(ops)) >= 72 * HOUR && |Accepted(ops)| >= 100 && WalletNet(Accepted(ops)) > 0
    ensures Ready(SummaryOf(After(ops)).summary, hours, 72.0, 100)
  {
    RuntimeIsCovered(ops);
    RecordsAreTheAccepted(ops);
    hide After, Accepted, Beats, Covered, WalletNet;
    var n: int :| hours == Millionths(n);
    assert After(ops).runtime as real / HOUR as real >= 72.0;
    assert n as real >= 72000000.0 - 0.5;
    assert n >= 72000000;
  }
}
