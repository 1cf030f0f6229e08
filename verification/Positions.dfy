/**
 The position manager (ops/strategy_loop.py): positions are opened under a guard and closed by a timed,
 prioritised set of exits. Objects are updated in place; each update is proved to be a function of the
 position's fields, and the lemmas follow those functions over whole runs. Prices and times are reals.
 */
module Positions {
  import opened Wrappers

  datatype Reason = Timeout | TrailingStop | TakeProfit | StopLoss

  /** What a position is opened with. */
  datatype Terms = Terms(
    mint: string,
    entryTime: real,
    buySol: real,
    entryPrice: real,
    takeProfitPct: real,
    stopLossPct: real,
    holdSeconds: real,
    trailingStopPct: real)

  datatype Exit = Exit(time: real, reason: Reason, pnl: real)

  /** A position's fields: it is closed when it has an exit. */
  datatype View = View(terms: Terms, exit: Option<Exit>, peak: real, lastCheck: real) {
    predicate Closed() { exit.Some? }
  }

  function Opened(terms: Terms): View {
    View(terms, None, 0.0, 0.0)
  }

  /** Percentage change from `base` to `price`. */
  function Change(price: real, base: real): real
    requires base != 0.0
  {
    (price - base) / base * 100.0
  }

  /** The position's price is asked for in a check at `now`. */
  predicate IsDue(v: View, now: real) {
    var elapsed := now - v.terms.entryTime;
    !v.Closed() && elapsed < v.terms.holdSeconds && elapsed >= 3.0 && now - v.lastCheck >= 3.0
  }

  /** ... and answered with a usable price. */
  predicate IsPriced(v: View, now: real, price: Option<real>) {
    IsDue(v, now) && price.Some? && price.value > 0.0 && v.terms.entryPrice > 0.0
  }

  /** The result booked for a percentage change. */
  function Booked(buySol: real, change: real): real {
    buySol * change / 100.0
  }

  function Max(a: real, b: real): real {
    if b > a then b else a
  }

  /** The exit a usable price triggers, if any; the trailing stop first, then profit, then loss. */
  function PriceExit(t: Terms, peak: real, price: real): Option<Reason>
    requires t.entryPrice > 0.0 && peak > 0.0
  {
    var change := Change(price, t.entryPrice);
    if t.trailingStopPct > 0.0 && Change(price, peak) <= -t.trailingStopPct then Some(TrailingStop)
    else if t.takeProfitPct > 0.0 && change >= t.takeProfitPct then Some(TakeProfit)
    else if change <= -t.stopLossPct then Some(StopLoss)
    else None
  }

  /** One position's part of a check. */
  function Checked(v: View, now: real, price: Option<real>): View {
    if v.Closed() then v
    else if now - v.terms.entryTime >= v.terms.holdSeconds then v.(exit := Some(Exit(now, Timeout, 0.0)))
    else if !IsDue(v, now) then v
    else if !IsPriced(v, now, price) then v.(lastCheck := now)
    else
      var peak := Max(v.peak, price.value);
      var reason := PriceExit(v.terms, peak, price.value);
      var exit :=
        if reason.None? then None
        else Some(Exit(now, reason.value, Booked(v.terms.buySol, Change(price.value, v.terms.entryPrice))));
      v.(lastCheck := now, peak := peak, exit := exit)
  }

  // ---- The objects

  class Position {
    const terms: Terms
    var closed: bool
    var exitTime: real
    var exitReason: Reason
    var pnl: real
    var peak: real
    var lastCheck: real

    constructor (terms: Terms)
      ensures this.terms == terms && State() == Opened(terms)
    {
      this.terms := terms;
      closed, exitTime, exitReason, pnl, peak, lastCheck := false, 0.0, Timeout, 0.0, 0.0, 0.0;
    }

    function State(): View
      reads this
    {
      View(terms, if closed then Some(Exit(exitTime, exitReason, pnl)) else None, peak, lastCheck)
    }

    method Close(now: real, reason: Reason, result: real)
      modifies this
      ensures State() == old(State()).(exit := Some(Exit(now, reason, result)))
    {
      closed, exitTime, exitReason, pnl := true, now, reason, result;
    }

    /** One turn of the loop in `check_exits`; the result says whether the position exits now. */
    method Check(now: real, price: Option<real>) returns (exits: bool)
      requires !closed
      modifies this
      ensures State() == Checked(old(State()), now, price)
      ensures exits == closed
    {
      hide Change, Booked;
      var elapsed := now - terms.entryTime;
      if elapsed >= terms.holdSeconds {
        Close(now, Timeout, 0.0);
        return true;
      }
      if elapsed < 3.0 || now - lastCheck < 3.0 {
        return false;
      }
      lastCheck := now;
      if price.None? || price.value <= 0.0 || terms.entryPrice <= 0.0 {
        return false;
      }
      if price.value > peak {
        peak := price.value;
      }
      var change := Change(price.value, terms.entryPrice);
      if peak > 0.0 && terms.trailingStopPct > 0.0 {
        if Change(price.value, peak) <= -terms.trailingStopPct {
          Close(now, TrailingStop, Booked(terms.buySol, change));
          return true;
        }
      }
      if terms.takeProfitPct > 0.0 && change >= terms.takeProfitPct {
        Close(now, TakeProfit, Booked(terms.buySol, change));
        return true;
      } else if change <= -terms.stopLossPct {
        Close(now, StopLoss, Booked(terms.buySol, change));
        return true;
      }
      return false;
    }
  }

  function PriceOf(prices: map<Position, real>, p: Position): Option<real> {
    if p in prices then Some(prices[p]) else None
  }

  class PositionManager {
    var positions: seq<Position>
    const maxPositions: int

    constructor (maxPositions: int)
      ensures this.maxPositions == maxPositions && positions == []
    {
      this.maxPositions := maxPositions;
      positions := [];
    }

    ghost predicate Valid()
      reads this
    {
      forall i, j :: 0 <= i < j < |positions| ==> positions[i] != positions[j]
    }

    function Views(): (views: seq<View>)
      reads this, positions
      ensures |views| == |positions|
      ensures forall i :: 0 <= i < |views| ==> views[i] == positions[i].State()
    {
      ViewsOf(positions)
    }

    /** The open positions, in order. */
    method Active() returns (active: seq<Position>)
      requires Valid()
      ensures forall p :: p in active <==> p in positions && !p.closed
      ensures forall i, j :: 0 <= i < j < |active| ==> active[i] != active[j]
      ensures |active| == OpenCount(Views())
    {
      active := [];
      NoneOpen();
      hide OpenCount;
      for i := 0 to |positions|
        invariant forall p :: p in active <==> p in positions[..i] && !p.closed
        invariant forall k, j :: 0 <= k < j < |active| ==> active[k] != active[j]
        invariant |active| == OpenCount(Views()[..i])
      {
        OpenCountStep(Views(), i);
        if !positions[i].closed {
          active := active + [positions[i]];
        }
      }
      assert Views()[..|positions|] == Views() && positions[..|positions|] == positions;
    }

    method CanOpen() returns (ok: bool)
      requires Valid()
      ensures ok == (OpenCount(Views()) < maxPositions)
      ensures ok == (|OpenAt(Views())| < maxPositions)
    {
      var active := Active();
      OpenCountExactly(Views());
      ok := |active| < maxPositions;
    }

    method Open(p: Position)
      requires Valid() && p !in positions
      modifies this
      ensures Valid() && positions == old(positions) + [p]
    {
      positions := positions + [p];
    }

    /** Checks every open position; returns exactly those this call closed, each once. */
    method CheckExits(now: real, prices: map<Position, real>) returns (exited: seq<Position>)
      requires Valid()
      modifies positions
      ensures forall i :: 0 <= i < |positions| ==>
                            var p := positions[i];
                            p.State() == Checked(old(p.State()), now, PriceOf(prices, p))
      ensures forall p :: p in exited <==> p in positions && !old(p.closed) && p.closed
      ensures forall i, j :: 0 <= i < j < |exited| ==> exited[i] != exited[j]
    {
      hide Checked, OpenCount;
      exited := [];
      var active := Active();
      forall i | 0 <= i < |positions| && positions[i].closed
        ensures Checked(positions[i].State(), now, PriceOf(prices, positions[i])) == positions[i].State()
      {
        CheckedKeepsTerms(positions[i].State(), now, PriceOf(prices, positions[i]));
      }
      for n := 0 to |active|
        invariant forall p :: p in exited <==> p in active[..n] && p.closed
        invariant forall i, j :: 0 <= i < j < |exited| ==> exited[i] != exited[j]
        invariant forall i :: 0 <= i < |positions| ==>
                                positions[i].State() ==
                                if positions[i] in active[..n]
                                then Checked(old(positions[i].State()), now, PriceOf(prices, positions[i]))
                                else old(positions[i].State())
      {
        var p := active[n];
        assert p !in active[..n] && p in active;
        ghost var at :| 0 <= at < |positions| && positions[at] == p;
        assert !positions[at].State().Closed();
        var exits := p.Check(now, PriceOf(prices, p));
        if exits {
          exited := exited + [p];
        }
        assert active[..n + 1] == active[..n] + [p];
      }
      assert active[..|active|] == active;
    }

    /**
     One signal in the trading loop: skip a mint already held, then respect the limit, the balance check and
     a dry run; a buy that was not submitted opens nothing.
     */
    method Consider(terms: Terms, canTrade: bool, dryRun: bool, submitted: bool) returns (p: Option<Position>)
      requires Valid()
      modifies this
      ensures Valid()
      ensures p.Some? <==>
              && canTrade && !dryRun && submitted
              && (forall q :: q in old(positions) && !old(q.closed) ==> q.terms.mint != terms.mint)
              && |OpenAt(old(Views()))| < maxPositions
      ensures p.Some? <==> canTrade && !dryRun && submitted && MayOpen(old(Views()), maxPositions, terms)
      ensures p.None? ==> positions == old(positions)
      ensures p.Some? ==>
                && fresh(p.value) && positions == old(positions) + [p.value]
                && p.value.State() == Opened(terms) == View(terms, None, 0.0, 0.0)
    {
      for i := 0 to |positions|
        invariant forall j :: 0 <= j < i ==> !(positions[j].terms.mint == terms.mint && !positions[j].closed)
      {
        if positions[i].terms.mint == terms.mint && !positions[i].closed {
          assert Views()[i].terms.mint == terms.mint;
          return None;
        }
      }
      var room := CanOpen();
      if !room {
        return None;
      }
      if !canTrade {
        return None;
      }
      if dryRun || !submitted {
        return None;
      }
      var position := new Position(terms);
      Open(position);
      p := Some(position);
    }
  }

  function ViewsOf(positions: seq<Position>): (views: seq<View>)
    reads positions
    ensures |views| == |positions|
    ensures forall i :: 0 <= i < |views| ==> views[i] == positions[i].State()
  {
    if positions == [] then [] else ViewsOf(positions[..|positions| - 1]) + [positions[|positions| - 1].State()]
  }

  // ---- Whole runs

  function OpenCount(views: seq<View>): nat {
    if views == [] then 0
    else OpenCount(views[..|views| - 1]) + (if views[|views| - 1].Closed() then 0 else 1)
  }

  lemma NoneOpen()
    ensures OpenCount([]) == 0
  {
  }

  lemma OpenCountStep(views: seq<View>, i: nat)
    requires i < |views|
    ensures OpenCount(views[..i + 1]) == OpenCount(views[..i]) + (if views[i].Closed() then 0 else 1)
  {
    assert views[..i + 1][..i] == views[..i];
  }

  /** The places of the open positions. */
  function OpenAt(views: seq<View>): set<nat> {
    set i: nat | i < |views| && views[i].exit.None?
  }

  lemma {:induction false} OpenCountExactly(views: seq<View>)
    ensures OpenCount(views) == |OpenAt(views)|
    decreases |views|
  {
    if views == [] {
      assert OpenAt(views) == {};
    } else {
      var n := |views| - 1;
      OpenCountExactly(views[..n]);
      assert OpenAt(views) == OpenAt(views[..n]) + (if views[n].exit.None? then {n} else {});
      assert n !in OpenAt(views[..n]);
    }
  }

  predicate HoldsMint(views: seq<View>, mint: string) {
    exists i :: 0 <= i < |views| && views[i].terms.mint == mint && !views[i].Closed()
  }

  predicate MayOpen(views: seq<View>, maxPositions: int, terms: Terms) {
    !HoldsMint(views, terms.mint) && OpenCount(views) < maxPositions
  }

  datatype Event =
    | Check(now: real, prices: nat -> Option<real>)
    | Offer(terms: Terms, bought: bool)

  function CheckedAll(views: seq<View>, now: real, prices: nat -> Option<real>): (after: seq<View>)
    ensures |after| == |views|
    ensures forall i :: 0 <= i < |views| ==> after[i] == Checked(views[i], now, prices(i))
  {
    if views == [] then []
    else
      var n := |views| - 1;
      CheckedAll(views[..n], now, prices) + [Checked(views[n], now, prices(n))]
  }

  function Stepped(maxPositions: int, views: seq<View>, e: Event): seq<View> {
    match e
    case Check(now, prices) => CheckedAll(views, now, prices)
    case Offer(terms, bought) =>
      if bought && MayOpen(views, maxPositions, terms) then views + [Opened(terms)] else views
  }

  function Run(maxPositions: int, events: seq<Event>): seq<View> {
    if events == [] then []
    else Stepped(maxPositions, Run(maxPositions, events[..|events| - 1]), events[|events| - 1])
  }

  predicate OneOpenPerMint(views: seq<View>) {
    forall i, j :: 0 <= i < j < |views| && !views[i].Closed() && !views[j].Closed() ==>
                     views[i].terms.mint != views[j].terms.mint
  }

  lemma {:induction false} ChecksOnlyClose(views: seq<View>, now: real, prices: nat -> Option<real>)
    ensures OpenCount(CheckedAll(views, now, prices)) <= OpenCount(views)
    decreases |views|
  {
    if views != [] {
      var n := |views| - 1;
      ChecksOnlyClose(views[..n], now, prices);
      assert CheckedAll(views, now, prices)[..n] == CheckedAll(views[..n], now, prices);
    }
  }

  lemma CheckedKeepsTerms(v: View, now: real, price: Option<real>)
    ensures Checked(v, now, price).terms == v.terms
    ensures v.Closed() ==> Checked(v, now, price) == v
  {
    hide Change;
  }

  lemma CheckKeepsOnePerMint(views: seq<View>, now: real, prices: nat -> Option<real>)
    requires OneOpenPerMint(views)
    ensures OneOpenPerMint(CheckedAll(views, now, prices))
  {
    hide Checked, CheckedAll;
    forall i | 0 <= i < |views|
      ensures Checked(views[i], now, prices(i)).terms == views[i].terms
      ensures views[i].Closed() ==> Checked(views[i], now, prices(i)).Closed()
    {
      CheckedKeepsTerms(views[i], now, prices(i));
    }
  }

  /** On every run, no two open positions share a mint and the limit holds. */
  lemma {:induction false} HoldingsStayBounded(maxPositions: int, events: seq<Event>)
    ensures OneOpenPerMint(Run(maxPositions, events))
    ensures OpenCount(Run(maxPositions, events)) <= if maxPositions > 0 then maxPositions else 0
    decreases |events|
  {
    hide CheckedAll;
    if events != [] {
      var init, last := events[..|events| - 1], events[|events| - 1];
      HoldingsStayBounded(maxPositions, init);
      var before := Run(maxPositions, init);
      match last
      case Check(now, prices) =>
        ChecksOnlyClose(before, now, prices);
        CheckKeepsOnePerMint(before, now, prices);
      case Offer(terms, bought) =>
        assert (before + [Opened(terms)])[..|before|] == before;
    }
  }

  /** What one event does to the position at `i`. */
  lemma StepAt(maxPositions: int, views: seq<View>, e: Event, i: nat)
    ensures var after := Stepped(maxPositions, views, e);
            if i < |views| then
              i < |after| && after[i] == if e.Check? then Checked(views[i], e.now, e.prices(i)) else views[i]
            else i < |after| ==> e.Offer? && after[i] == Opened(e.terms)
  {
    hide CheckedAll, Checked, MayOpen;
  }

  /** Positions keep their place and terms, and a closed one never changes again. */
  lemma {:induction false} ClosedIsFinal(maxPositions: int, events: seq<Event>, n: nat, i: nat)
    requires n <= |events| && i < |Run(maxPositions, events[..n])|
    ensures i < |Run(maxPositions, events)|
    ensures Run(maxPositions, events)[i].terms == Run(maxPositions, events[..n])[i].terms
    ensures Run(maxPositions, events[..n])[i].Closed() ==>
              Run(maxPositions, events)[i] == Run(maxPositions, events[..n])[i]
    decreases |events|
  {
    hide Stepped, Checked;
    if n == |events| {
      assert events[..n] == events;
    } else {
      var init, last := events[..|events| - 1], events[|events| - 1];
      assert init[..n] == events[..n];
      ClosedIsFinal(maxPositions, init, n, i);
      StepAt(maxPositions, Run(maxPositions, init), last, i);
      if last.Check? {
        CheckedKeepsTerms(Run(maxPositions, init)[i], last.now, last.prices(i));
      }
    }
  }

  /** Event `k` is a check that returns position `i`. */
  predicate ReturnedAt(maxPositions: int, events: seq<Event>, k: nat, i: nat)
    requires k < |events|
  {
    var before, after := Run(maxPositions, events[..k]), Run(maxPositions, events[..k + 1]);
    events[k].Check? && i < |before| && i < |after| && !before[i].Closed() && after[i].Closed()
  }

  /** No check returns a position a second time. */
  lemma NeverReturnedAgain(maxPositions: int, events: seq<Event>, k: nat, m: nat, i: nat)
    requires k < m < |events| && ReturnedAt(maxPositions, events, k, i)
    ensures !ReturnedAt(maxPositions, events, m, i)
  {
    assert events[..m][..k + 1] == events[..k + 1];
    ClosedIsFinal(maxPositions, events[..m], k + 1, i);
  }

  lemma ReturnedInPrefix(maxPositions: int, events: seq<Event>, n: nat, k: nat, i: nat)
    requires k < n <= |events|
    ensures ReturnedAt(maxPositions, events[..n], k, i) == ReturnedAt(maxPositions, events, k, i)
  {
    assert events[..n][..k] == events[..k] && events[..n][..k + 1] == events[..k + 1];
  }

  /** A position is closed after an event exactly when it was before, or that event is a check that returns it. */
  lemma ClosedByLast(maxPositions: int, events: seq<Event>, i: nat)
    requires events != [] && i < |Run(maxPositions, events)|
    ensures var n := |events| - 1;
            var before := Run(maxPositions, events[..n]);
            Run(maxPositions, events)[i].Closed() <==>
            (i < |before| && before[i].Closed()) || ReturnedAt(maxPositions, events, n, i)
  {
    hide Stepped, Checked, MayOpen;
    var n := |events| - 1;
    var before, last := Run(maxPositions, events[..n]), events[n];
    assert events[..n + 1] == events;
    StepAt(maxPositions, before, last, i);
    if last.Check? && i < |before| {
      CheckedKeepsTerms(before[i], last.now, last.prices(i));
    }
  }

  lemma ReturnedEarlier(maxPositions: int, events: seq<Event>, n: nat, k: nat, i: nat)
    requires k < n <= |events|
    ensures ReturnedAt(maxPositions, events[..n], k, i) == ReturnedAt(maxPositions, events, k, i)
    ensures ReturnedAt(maxPositions, events, k, i) ==> i < |Run(maxPositions, events[..n])|
  {
    hide Run;
    ReturnedInPrefix(maxPositions, events, n, k, i);
    if ReturnedAt(maxPositions, events, k, i) {
      assert events[..n][..k + 1] == events[..k + 1];
      ClosedIsFinal(maxPositions, events[..n], k + 1, i);
    }
  }

  /** Some check of the run returned position `i`. */
  predicate Returned(maxPositions: int, events: seq<Event>, i: nat) {
    exists k :: 0 <= k < |events| && ReturnedAt(maxPositions, events, k, i)
  }

  lemma ReturnedSnoc(maxPositions: int, events: seq<Event>, i: nat)
    requires events != []
    ensures var n := |events| - 1;
            Returned(maxPositions, events, i) <==>
            (i < |Run(maxPositions, events[..n])| && Returned(maxPositions, events[..n], i))
            || ReturnedAt(maxPositions, events, n, i)
  {
    hide Run, ReturnedAt;
    var n := |events| - 1;
    if k :| 0 <= k < |events| && ReturnedAt(maxPositions, events, k, i) && k < n {
      ReturnedEarlier(maxPositions, events, n, k, i);
    }
    if Returned(maxPositions, events[..n], i) {
      var k :| 0 <= k < n && ReturnedAt(maxPositions, events[..n], k, i);
      ReturnedEarlier(maxPositions, events, n, k, i);
    }
  }

  /** A position is closed at the end exactly when some check returned it. */
  lemma {:induction false} ClosedMeansReturned(maxPositions: int, events: seq<Event>, i: nat)
    requires i < |Run(maxPositions, events)|
    ensures Run(maxPositions, events)[i].Closed() <==> Returned(maxPositions, events, i)
    decreases |events|
  {
    if events == [] {
      return;
    }
    hide Run, ReturnedAt, Returned;
    var n := |events| - 1;
    ClosedByLast(maxPositions, events, i);
    ReturnedSnoc(maxPositions, events, i);
    if i < |Run(maxPositions, events[..n])| {
      ClosedMeansReturned(maxPositions, events[..n], i);
    }
  }

  // ---- Prices

  /** The prices that reached position `i` in a run, in order. */
  function Observed(maxPositions: int, events: seq<Event>, i: nat): seq<real> {
    if events == [] then []
    else
      var init, last := events[..|events| - 1], events[|events| - 1];
      var before := Run(maxPositions, init);
      if last.Check? && i < |before| && IsPriced(before[i], last.now, last.prices(i))
      then Observed(maxPositions, init, i) + [last.prices(i).value]
      else Observed(maxPositions, init, i)
  }

  lemma CheckedPeak(v: View, now: real, price: Option<real>)
    ensures Checked(v, now, price).peak == if IsPriced(v, now, price) then Max(v.peak, price.value) else v.peak
  {
    hide Change, Booked;
  }

  /** The peak is zero before any price and the largest observed price after. */
  lemma {:induction false} PeakIsLargestObserved(maxPositions: int, events: seq<Event>, i: nat)
    ensures var seen := Observed(maxPositions, events, i);
            if i < |Run(maxPositions, events)| then
              var peak := Run(maxPositions, events)[i].peak;
              && (forall k :: 0 <= k < |seen| ==> 0.0 < seen[k] <= peak)
              && (if seen == [] then peak == 0.0 else peak in seen)
            else seen == []
    decreases |events|
  {
    hide Stepped, Checked;
    if events != [] {
      var init, last := events[..|events| - 1], events[|events| - 1];
      PeakIsLargestObserved(maxPositions, init, i);
      StepAt(maxPositions, Run(maxPositions, init), last, i);
      if last.Check? && i < |Run(maxPositions, init)| {
        CheckedPeak(Run(maxPositions, init)[i], last.now, last.prices(i));
      }
    }
  }

  /** A percentage threshold, cleared of the division. */
  lemma ChangeBand(price: real, base: real, pct: real)
    requires base > 0.0
    ensures Change(price, base) <= -pct <==> price <= base * (1.0 - pct / 100.0)
    ensures Change(price, base) >= pct <==> price >= base * (1.0 + pct / 100.0)
    ensures Change(price, base) * base == (price - base) * 100.0
  {
    var ratio := (price - base) / base;
    assert ratio * base == price - base;
    assert Change(price, base) == ratio * 100.0;
    var low, high := -pct / 100.0, pct / 100.0;
    assert ratio <= low <==> ratio * base <= low * base;
    assert ratio >= high <==> ratio * base >= high * base;
    assert base * (1.0 - pct / 100.0) == base + low * base;
    assert base * (1.0 + pct / 100.0) == base + high * base;
  }

  /** The three price bands, as prices: an exit comes exactly outside them, in priority order. */
  lemma ExitBands(t: Terms, peak: real, price: real)
    requires t.entryPrice > 0.0 && peak > 0.0
    ensures var trailing := t.trailingStopPct > 0.0 && price <= peak * (1.0 - t.trailingStopPct / 100.0);
            var profit := t.takeProfitPct > 0.0 && price >= t.entryPrice * (1.0 + t.takeProfitPct / 100.0);
            var loss := price <= t.entryPrice * (1.0 - t.stopLossPct / 100.0);
            PriceExit(t, peak, price) ==
            if trailing then Some(TrailingStop)
            else if profit then Some(TakeProfit)
            else if loss then Some(StopLoss)
            else None
  {
    ChangeBand(price, peak, t.trailingStopPct);
    ChangeBand(price, t.entryPrice, t.takeProfitPct);
    ChangeBand(price, t.entryPrice, t.stopLossPct);
  }

  /** When a check asks for a price: an open position in its time, three seconds in and since it last asked. */
  predicate Asks(v: View, now: real) {
    && v.exit.None?
    && 3.0 <= now - v.terms.entryTime < v.terms.holdSeconds
    && now >= v.lastCheck + 3.0
  }

  /** ... and when the answer is of use. */
  predicate Usable(v: View, price: Option<real>) {
    price.Some? && price.value > 0.0 && v.terms.entryPrice > 0.0
  }

  /** The exit a usable price calls for, as prices. */
  function BandExit(t: Terms, peak: real, price: real): Option<Reason> {
    if t.trailingStopPct > 0.0 && price <= peak * (1.0 - t.trailingStopPct / 100.0) then Some(TrailingStop)
    else if t.takeProfitPct > 0.0 && price >= t.entryPrice * (1.0 + t.takeProfitPct / 100.0) then Some(TakeProfit)
    else if price <= t.entryPrice * (1.0 - t.stopLossPct / 100.0) then Some(StopLoss)
    else None
  }

  /**
   A check, in full: a closed position stays; one out of time is closed for nothing; the time of asking moves
   exactly when it asks; and a usable answer raises the peak and closes the position by the bands, booking the
   price move.
   */
  lemma ChecksExactly(v: View, now: real, price: Option<real>)
    ensures var c := Checked(v, now, price);
            var peak := if price.Some? && price.value > v.peak then price.value else v.peak;
            && c.terms == v.terms
            && (v.exit.Some? ==> c == v)
            && (v.exit.None? && now - v.terms.entryTime >= v.terms.holdSeconds ==>
                  c == v.(exit := Some(Exit(now, Timeout, 0.0))))
            && (v.exit.None? && now - v.terms.entryTime < v.terms.holdSeconds ==>
                  && c.lastCheck == (if Asks(v, now) then now else v.lastCheck)
                  && c.peak == (if Asks(v, now) && Usable(v, price) && peak > 0.0 then peak else v.peak)
                  && (!(Asks(v, now) && Usable(v, price)) ==> c.exit.None?))
            && (Asks(v, now) && Usable(v, price) ==>
                  && (c.exit.None? <==> BandExit(v.terms, c.peak, price.value).None?)
                  && (c.exit.Some? ==>
                        && c.exit.value.time == now
                        && Some(c.exit.value.reason) == BandExit(v.terms, c.peak, price.value)
                        && c.exit.value.pnl * v.terms.entryPrice
                           == v.terms.buySol * (price.value - v.terms.entryPrice)))
  {
    hide Change, Booked, PriceExit, BandExit;
    if Asks(v, now) && Usable(v, price) {
      var t, peak, p := v.terms, Max(v.peak, price.value), price.value;
      BandsAgree(t, peak, p);
      ChangeBand(p, t.entryPrice, 0.0);
      BookedExactly(t.buySol, p, t.entryPrice);
    }
  }

  lemma BandsAgree(t: Terms, peak: real, price: real)
    requires t.entryPrice > 0.0 && peak > 0.0
    ensures PriceExit(t, peak, price) == BandExit(t, peak, price)
  {
    hide Change;
    ExitBands(t, peak, price);
  }

  lemma BookedExactly(buySol: real, price: real, base: real)
    requires base > 0.0
    ensures Booked(buySol, Change(price, base)) * base == buySol * (price - base)
  {
    ChangeBand(price, base, 0.0);
    BookedMove(buySol, Change(price, base), price, base);
  }

  /** A position a check leaves open has not run out of time, and if it asked and was answered is inside its bands. */
  lemma OpenMeansInsideBands(v: View, now: real, price: Option<real>)
    requires Checked(v, now, price).exit.None?
    ensures now - v.terms.entryTime < v.terms.holdSeconds
    ensures now - v.terms.entryTime >= 3.0 && now - v.lastCheck >= 3.0
            && price.Some? && price.value > 0.0 && v.terms.entryPrice > 0.0 ==>
              var t, peak, p := v.terms, Checked(v, now, price).peak, price.value;
              && peak >= p
              && (t.trailingStopPct > 0.0 ==> p > peak * (1.0 - t.trailingStopPct / 100.0))
              && (t.takeProfitPct > 0.0 ==> p < t.entryPrice * (1.0 + t.takeProfitPct / 100.0))
              && p > t.entryPrice * (1.0 - t.stopLossPct / 100.0)
  {
    hide Checked;
    ChecksExactly(v, now, price);
  }

  /** After any check of all positions, every one still open is within its time and, if answered, its bands. */
  lemma AfterCheckAllInside(views: seq<View>, now: real, prices: nat -> Option<real>, i: nat)
    requires i < |views| && CheckedAll(views, now, prices)[i].exit.None?
    ensures var v := CheckedAll(views, now, prices)[i];
            && now - v.terms.entryTime < v.terms.holdSeconds
            && (now - v.terms.entryTime >= 3.0 && now - views[i].lastCheck >= 3.0
                && prices(i).Some? && prices(i).value > 0.0 && v.terms.entryPrice > 0.0 ==>
                  BandExit(v.terms, v.peak, prices(i).value).None?)
  {
    hide CheckedAll, Checked, BandExit;
    ChecksExactly(views[i], now, prices(i));
  }

  lemma ScaledChange(amount: real, change: real, pct: real)
    requires amount >= 0.0
    ensures change >= pct ==> amount * change / 100.0 >= amount * pct / 100.0
    ensures change <= pct ==> amount * change / 100.0 <= amount * pct / 100.0
  {
    if change >= pct {
      assert amount * (change - pct) >= 0.0;
    }
    if change <= pct {
      assert amount * (pct - change) >= 0.0;
    }
  }

  /**
   What an exit says: the timeout beats every price exit and books nothing; a profit exit books at least
   its target; a loss exit at least its limit; and a price exit books exactly the price move.
   */
  lemma ReasonFixesResult(v: View, now: real, price: Option<real>)
    requires !v.Closed() && Checked(v, now, price).Closed() && v.terms.buySol >= 0.0
    ensures var t, exit := v.terms, Checked(v, now, price).exit.value;
            && exit.time == now
            && (exit.reason == Timeout <==> now - t.entryTime >= t.holdSeconds)
            && (exit.reason == Timeout ==> exit.pnl == 0.0)
            && (exit.reason != Timeout ==>
                  IsPriced(v, now, price) && exit.pnl * t.entryPrice == t.buySol * (price.value - t.entryPrice))
            && (exit.reason == TakeProfit ==> exit.pnl >= t.buySol * t.takeProfitPct / 100.0)
            && (exit.reason == StopLoss ==> exit.pnl <= t.buySol * -t.stopLossPct / 100.0)
            && (exit.reason == TrailingStop ==>
                  price.value <= Checked(v, now, price).peak * (1.0 - t.trailingStopPct / 100.0))
  {
    var t := v.terms;
    if now - t.entryTime < t.holdSeconds {
      var p := price.value;
      var peak, change := Max(v.peak, p), Change(p, t.entryPrice);
      ExitBands(t, peak, p);
      ChangeBand(p, t.entryPrice, t.takeProfitPct);
      ScaledChange(t.buySol, change, t.takeProfitPct);
      ScaledChange(t.buySol, change, -t.stopLossPct);
      BookedMove(t.buySol, change, p, t.entryPrice);
    }
  }

  lemma BookedMove(amount: real, change: real, price: real, base: real)
    requires change * base == (price - base) * 100.0
    ensures amount * change / 100.0 * base == amount * (price - base)
  {
    assert amount * change / 100.0 * base == amount * (change * base) / 100.0;
  }
}
