/**
 The hot-flow aggregator (backrunner/momentum.py): buys on a mint are kept for a short window, and a
 signal is emitted when the window holds enough of them. The class prunes as it goes; the theorem is
 that pruning is invisible, and that signals come exactly when they should.
 Amounts are reals; times are any real clock that does not run backwards.
 */
module Momentum {
  import opened Wrappers
  import opened Window

  type Mint = string

  datatype Row = Row(time: real, buyer: string, sol: real, price: real)

  datatype Signal = Signal(
    buyer: string, mint: Mint, sol: real, usd: real, received: real, signature: string, slot: int)

  datatype Settings = Settings(minimumBuys: int, minimumSol: real, window: real)

  /** The aggregator's four fields. */
  datatype Flow = Flow(
    trending: set<Mint>, seen: set<string>, flows: map<Mint, seq<Row>>, triggered: map<Mint, real>)

  const EMPTY_FLOW: Flow := Flow({}, {}, map[], map[])

  datatype Event =
    | SetTrending(mints: set<Mint>)
    | Add(mint: Mint, buyer: string, sol: real, price: real, signature: string, now: real)

  function Within(now: real, window: real): Row -> bool {
    (row: Row) => now - row.time <= window
  }

  /** The rows of `rows` still inside the window at `now`. */
  function Recent(rows: seq<Row>, now: real, window: real): seq<Row> {
    Keep(rows, Within(now, window))
  }

  /** A row is kept exactly while it is no older than the window, and rows stay in order. */
  lemma RecentExactly(rows: seq<Row>, row: Row, now: real, window: real)
    ensures Recent([], now, window) == []
    ensures Recent(rows + [row], now, window)
            == Recent(rows, now, window) + if row.time >= now - window then [row] else []
  {
    KeepConcat(rows, [row], Within(now, window));
    KeepOne(row, Within(now, window));
  }

  function TotalSol(rows: seq<Row>): real {
    if rows == [] then 0.0 else TotalSol(rows[..|rows| - 1]) + rows[|rows| - 1].sol
  }

  lemma TotalIsTheSum(rows: seq<Row>, row: Row)
    ensures TotalSol([]) == 0.0 && TotalSol(rows + [row]) == TotalSol(rows) + row.sol
  {
    assert (rows + [row])[..|rows|] == rows;
  }

  predicate Meets(c: Settings, rows: seq<Row>) {
    |rows| >= c.minimumBuys && TotalSol(rows) >= c.minimumSol
  }

  function RowsOf(flows: map<Mint, seq<Row>>, mint: Mint): seq<Row> {
    if mint in flows then flows[mint] else []
  }

  /** An add is ignored when its mint is off the list or its signature was seen. */
  predicate Accepts(f: Flow, e: Event) {
    e.Add? && (f.trending == {} || e.mint in f.trending) && (e.signature == "" || e.signature !in f.seen)
  }

  function RowOf(e: Event): Row
    requires e.Add?
  {
    Row(e.now, e.buyer, e.sol, e.price)
  }

  /** The rows an accepted add is judged on. */
  function Judged(c: Settings, f: Flow, e: Event): seq<Row>
    requires e.Add?
  {
    Recent(RowsOf(f.flows, e.mint), e.now, c.window) + [RowOf(e)]
  }

  function Emitted(c: Settings, f: Flow, e: Event): Option<Signal> {
    if Accepts(f, e) && Meets(c, Judged(c, f, e)) && e.mint !in f.triggered then
      var total := TotalSol(Judged(c, f, e));
      Some(Signal(e.buyer, e.mint, total, total * e.price, 0.0, e.signature, 0))
    else None
  }

  function Stepped(c: Settings, f: Flow, e: Event): Flow {
    match e
    case SetTrending(mints) =>
      f.(trending := mints, triggered := map m | m in f.triggered && m in mints :: f.triggered[m])
    case Add(mint, _, _, _, signature, now) =>
      if !Accepts(f, e) then f
      else
        f.(seen := if signature == "" then f.seen else f.seen + {signature},
           flows := f.flows[mint := Judged(c, f, e)],
           triggered := if Emitted(c, f, e).Some? then f.triggered[mint := now] else f.triggered)
  }

  // ---- The object

  class HotFlowAggregator {
    const settings: Settings
    var trending: set<Mint>
    var seen: set<string>
    var flows: map<Mint, seq<Row>>
    var triggered: map<Mint, real>

    constructor (settings: Settings)
      ensures this.settings == settings && State() == EMPTY_FLOW
    {
      this.settings := settings;
      trending, seen, flows, triggered := {}, {}, map[], map[];
    }

    function State(): Flow
      reads this
    {
      Flow(trending, seen, flows, triggered)
    }

    method SetTrending(mints: set<Mint>)
      modifies this
      ensures State() == Stepped(settings, old(State()), Event.SetTrending(mints))
      ensures trending == mints && seen == old(seen) && flows == old(flows)
      ensures forall m :: m in triggered <==> m in old(triggered) && m in mints
      ensures forall m :: m in triggered ==> triggered[m] == old(triggered)[m]
    {
      trending := mints;
      triggered := map m | m in triggered && m in trending :: triggered[m];
    }

    method Prune(rows: seq<Row>, now: real) returns (kept: seq<Row>)
      ensures kept == Recent(rows, now, settings.window)
    {
      kept := [];
      for i := 0 to |rows|
        invariant kept == Recent(rows[..i], now, settings.window)
      {
        assert rows[..i + 1][..i] == rows[..i];
        if now - rows[i].time <= settings.window {
          kept := kept + [rows[i]];
        }
      }
      assert rows[..|rows|] == rows;
    }

    method Sum(rows: seq<Row>) returns (total: real)
      ensures total == TotalSol(rows)
    {
      total := 0.0;
      for i := 0 to |rows|
        invariant total == TotalSol(rows[..i])
      {
        assert rows[..i + 1][..i] == rows[..i];
        total := total + rows[i].sol;
      }
      assert rows[..|rows|] == rows;
    }

    method Add(mint: Mint, buyer: string, sol: real, price: real, signature: string, now: real)
      returns (signal: Option<Signal>)
      modifies this
      ensures var e := Event.Add(mint, buyer, sol, price, signature, now);
              signal == Emitted(settings, old(State()), e) && State() == Stepped(settings, old(State()), e)
      ensures trending == old(trending)
      ensures triggered == (if signal.Some? then old(triggered)[mint := now] else old(triggered))
      ensures forall m :: m != mint ==> RowsOf(flows, m) == old(RowsOf(flows, m))
    {
      hide Recent, TotalSol;
      if trending != {} && mint !in trending {
        return None;
      }
      if signature != "" && signature in seen {
        return None;
      }
      if signature != "" {
        seen := seen + {signature};
      }
      var recent := Prune(RowsOf(flows, mint), now);
      var rows := recent + [Row(now, buyer, sol, price)];
      flows := flows[mint := rows];
      ghost var e, before := Event.Add(mint, buyer, sol, price, signature, now), old(State());
      assert Accepts(before, e);
      assert rows == Judged(settings, before, e);
      var total := Sum(rows);
      if |rows| < settings.minimumBuys || total < settings.minimumSol {
        return None;
      }
      if mint in triggered {
        return None;
      }
      triggered := triggered[mint := now];
      signal := Some(Signal(buyer, mint, total, total * price, 0.0, signature, 0));
      assert Emitted(settings, before, e).value.sol == total;
      assert Emitted(settings, before, e).value.usd == total * price;
    }
  }

  // ---- Runs

  function Run(c: Settings, events: seq<Event>): Flow {
    if events == [] then EMPTY_FLOW
    else Stepped(c, Run(c, events[..|events| - 1]), events[|events| - 1])
  }

  /** Whether event `i` of a run is accepted, and what it emits. */
  predicate AcceptedAt(c: Settings, events: seq<Event>, i: nat)
    requires i < |events|
  {
    Accepts(Run(c, events[..i]), events[i])
  }

  function EmittedAt(c: Settings, events: seq<Event>, i: nat): Option<Signal>
    requires i < |events|
  {
    Emitted(c, Run(c, events[..i]), events[i])
  }

  /** Every accepted row of a mint, never pruned. */
  function History(c: Settings, events: seq<Event>, mint: Mint): seq<Row> {
    if events == [] then []
    else
      var init, last := events[..|events| - 1], events[|events| - 1];
      if Accepts(Run(c, init), last) && last.mint == mint
      then History(c, init, mint) + [Row(last.now, last.buyer, last.sol, last.price)]
      else History(c, init, mint)
  }

  /** Times never decrease along the adds of a run. */
  predicate Clocked(events: seq<Event>) {
    forall i, j :: 0 <= i < j < |events| && events[i].Add? && events[j].Add? ==> events[i].now <= events[j].now
  }

  lemma ClockedPrefix(events: seq<Event>, n: nat)
    requires Clocked(events) && n <= |events|
    ensures Clocked(events[..n])
  {
  }

  /** At any time not before the last add, the kept rows show the same window as the full history. */
  lemma {:induction false} KeptRowsSuffice(c: Settings, events: seq<Event>, mint: Mint, now: real)
    requires Clocked(events)
    requires forall i :: 0 <= i < |events| && events[i].Add? ==> events[i].now <= now
    ensures Recent(RowsOf(Run(c, events).flows, mint), now, c.window) == Recent(History(c, events, mint), now, c.window)
    decreases |events|
  {
    if events != [] {
      var init, last := events[..|events| - 1], events[|events| - 1];
      ClockedPrefix(events, |init|);
      KeptRowsSuffice(c, init, mint, now);
      if Accepts(Run(c, init), last) && last.mint == mint {
        var kept, all := RowsOf(Run(c, init).flows, mint), History(c, init, mint);
        forall i | 0 <= i < |init| && init[i].Add?
          ensures init[i].now <= last.now
        {
          assert events[i] == init[i];
        }
        KeptRowsSuffice(c, init, mint, last.now);
        KeepConcat(Recent(kept, last.now, c.window), [RowOf(last)], Within(now, c.window));
        KeepTwice(kept, Within(last.now, c.window), Within(now, c.window));
        KeepTwice(all, Within(last.now, c.window), Within(now, c.window));
        KeepConcat(all, [RowOf(last)], Within(now, c.window));
        KeepOne(RowOf(last), Within(now, c.window));
      }
    }
  }

  /** Window refinement: each accepted add is judged on the full accepted history's window. */
  lemma PruningIsInvisible(c: Settings, events: seq<Event>, i: nat)
    requires Clocked(events) && i < |events| && AcceptedAt(c, events, i)
    ensures Judged(c, Run(c, events[..i]), events[i])
            == Recent(History(c, events[..i], events[i].mint), events[i].now, c.window) + [RowOf(events[i])]
  {
    ClockedPrefix(events, i);
    forall j | 0 <= j < i && events[..i][j].Add?
      ensures events[..i][j].now <= events[i].now
    {
    }
    KeptRowsSuffice(c, events[..i], events[i].mint, events[i].now);
  }

  lemma {:induction false} SeenExactly(c: Settings, events: seq<Event>, signature: string)
    requires signature != ""
    ensures signature in Run(c, events).seen <==>
            exists i :: 0 <= i < |events| && AcceptedAt(c, events, i) && events[i].signature == signature
    decreases |events|
  {
    if events != [] {
      var n := |events| - 1;
      var init := events[..n];
      SeenExactly(c, init, signature);
      assert forall i :: 0 <= i < n ==> init[..i] == events[..i];
      assert forall i :: 0 <= i < n ==> (AcceptedAt(c, init, i) <==> AcceptedAt(c, events, i));
      assert signature in Run(c, events).seen <==>
          signature in Run(c, init).seen || (AcceptedAt(c, events, n) && events[n].signature == signature);
    }
  }

  /** A non-empty signature is counted at most once, whatever the mints. */
  lemma SignatureCountsOnce(c: Settings, events: seq<Event>, i: nat, j: nat)
    requires i < j < |events| && AcceptedAt(c, events, i) && AcceptedAt(c, events, j)
    requires events[i].signature != ""
    ensures events[i].signature != events[j].signature
  {
    if events[i].signature == events[j].signature {
      var before := events[..j];
      assert before[..i] == events[..i];
      assert AcceptedAt(c, before, i);
      SeenExactly(c, before, events[i].signature);
    }
  }

  /** The list in force after a run: the last one set, or none. */
  function LastList(events: seq<Event>): set<Mint> {
    if events == [] then {}
    else
      var last := events[|events| - 1];
      if last.SetTrending? then last.mints else LastList(events[..|events| - 1])
  }

  lemma {:induction false} TrendingIsLastList(c: Settings, events: seq<Event>)
    ensures Run(c, events).trending == LastList(events)
    decreases |events|
  {
    if events != [] {
      TrendingIsLastList(c, events[..|events| - 1]);
      hide Emitted, Judged, Accepts;
    }
  }

  /** An add is taken in exactly when its mint is on the list in force, or none is, and its signature is new. */
  lemma AcceptedExactly(c: Settings, events: seq<Event>, i: nat)
    requires i < |events|
    ensures AcceptedAt(c, events, i) <==>
            && events[i].Add?
            && (LastList(events[..i]) == {} || events[i].mint in LastList(events[..i]))
            && (events[i].signature == "" || !exists k :: 0 <= k < i && AcceptedAt(c, events, k)
                                                          && events[k].signature == events[i].signature)
  {
    var before := events[..i];
    TrendingIsLastList(c, before);
    assert forall k :: 0 <= k < i ==> before[..k] == events[..k];
    assert forall k :: 0 <= k < i ==> (AcceptedAt(c, before, k) <==> AcceptedAt(c, events, k));
    if events[i].Add? && events[i].signature != "" {
      SeenExactly(c, before, events[i].signature);
    }
    hide Run, LastList;
  }

  predicate Emits(c: Settings, events: seq<Event>, j: nat, m: Mint)
    requires j < |events|
  {
    EmittedAt(c, events, j).Some? && events[j].mint == m
  }

  predicate Omits(e: Event, m: Mint) {
    e.SetTrending? && m !in e.mints
  }

  /** Event `j` emitted for `m`, and no list since has left `m` out. */
  ghost predicate TriggeredBy(c: Settings, events: seq<Event>, j: nat, m: Mint)
    requires j < |events|
  {
    Emits(c, events, j, m) && forall k :: j < k < |events| ==> !Omits(events[k], m)
  }

  /** Mint `m` has emitted, and no list since has left it out. */
  ghost predicate StillTriggered(c: Settings, events: seq<Event>, m: Mint) {
    exists j :: 0 <= j < |events| && TriggeredBy(c, events, j, m)
  }

  lemma TriggeredBySnoc(c: Settings, init: seq<Event>, last: Event, j: nat, m: Mint)
    requires j < |init|
    ensures TriggeredBy(c, init + [last], j, m) <==> TriggeredBy(c, init, j, m) && !Omits(last, m)
  {
    var events := init + [last];
    assert init[..j] == events[..j] && init[j] == events[j];
    assert events[|init|] == last && forall k :: 0 <= k < |init| ==> events[k] == init[k];
    hide Emitted, Omits;
  }

  lemma StillTriggeredSnoc(c: Settings, init: seq<Event>, last: Event, m: Mint)
    ensures StillTriggered(c, init + [last], m) <==>
            Emits(c, init + [last], |init|, m) || (StillTriggered(c, init, m) && !Omits(last, m))
  {
    hide Emits, Omits;
    var events := init + [last];
    forall j | 0 <= j < |init|
      ensures TriggeredBy(c, events, j, m) <==> TriggeredBy(c, init, j, m) && !Omits(last, m)
    {
      TriggeredBySnoc(c, init, last, j, m);
    }
    assert TriggeredBy(c, events, |init|, m) <==> Emits(c, events, |init|, m);
    hide TriggeredBy;
  }

  lemma {:induction false} TriggeredExactly(c: Settings, events: seq<Event>, m: Mint)
    ensures m in Run(c, events).triggered <==> StillTriggered(c, events, m)
    decreases |events|
  {
    if events != [] {
      var n := |events| - 1;
      var init, last := events[..n], events[n];
      assert events == init + [last];
      TriggeredExactly(c, init, m);
      StillTriggeredSnoc(c, init, last, m);
      assert Emits(c, events, n, m) == (Emitted(c, Run(c, init), last).Some? && last.mint == m);
    }
  }

  /**
   When a signal comes: exactly at an accepted add whose window over the full history meets both
   thresholds, for a mint that has not emitted since the last list that left it out.
   */
  lemma EmitsExactlyWhenDue(c: Settings, events: seq<Event>, i: nat)
    requires Clocked(events) && i < |events| && events[i].Add?
    ensures var e := events[i];
            var rows := Recent(History(c, events[..i], e.mint), e.now, c.window)
                        + [Row(e.now, e.buyer, e.sol, e.price)];
            && (EmittedAt(c, events, i).Some? <==>
                AcceptedAt(c, events, i) && |rows| >= c.minimumBuys && TotalSol(rows) >= c.minimumSol
                && !StillTriggered(c, events[..i], e.mint))
            && (EmittedAt(c, events, i).Some? ==>
                  var s := EmittedAt(c, events, i).value;
                  && s.buyer == e.buyer && s.mint == e.mint && s.signature == e.signature
                  && s.sol == TotalSol(rows) && s.usd == TotalSol(rows) * e.price
                  && s.received == 0.0 && s.slot == 0)
  {
    hide Recent, TotalSol, StillTriggered, History, Run;
    var e, f := events[i], Run(c, events[..i]);
    TriggeredExactly(c, events[..i], e.mint);
    if AcceptedAt(c, events, i) {
      PruningIsInvisible(c, events, i);
      var rows := Recent(History(c, events[..i], e.mint), e.now, c.window) + [Row(e.now, e.buyer, e.sol, e.price)];
      assert Judged(c, f, e) == rows;
    }
  }
}
