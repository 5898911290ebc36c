/**
 * Properties of whole pours and of arbitrary sequences of events, stated over
 * the session transitions.
 */
module PourProperties {
  import opened Wrappers
  import opened Beverages
  import opened IceCubes
  import opened PourSession

  /** Ticks compose: `j` firings followed by `k` firings are `j + k` firings. */
  lemma {:induction false} TicksAdd(s: Session, j: nat, k: nat)
    ensures Ticks(s, j + k) == Ticks(Ticks(s, j), k)
    decreases j
  {
    if j > 0 {
      TicksAdd(Tick(s), j - 1, k);
    }
  }

  /** Once the interval is cleared, further firings change nothing. */
  lemma {:induction false} TicksAfterStop(s: Session, n: nat)
    requires !s.intervalActive
    ensures Ticks(s, n) == s
    decreases n
  {
    if n > 0 {
      TicksAfterStop(Tick(s), n - 1);
    }
  }

  /** Firings keep the invariant, never lower the fill level and touch nothing but the fill and the timers. */
  lemma {:induction false} TicksRaise(s: Session, n: nat)
    requires Inv(s)
    ensures Inv(Ticks(s, n))
    ensures s.fillLevel <= Ticks(s, n).fillLevel <= FullLevel
    ensures Ticks(s, n) == s.(fillLevel := Ticks(s, n).fillLevel, currentFill := Ticks(s, n).currentFill,
                              intervalActive := Ticks(s, n).intervalActive,
                              settlePending := Ticks(s, n).settlePending)
    decreases n
  {
    if n > 0 {
      TicksRaise(Tick(s), n - 1);
    }
  }

  /** Within a pour the fill level never decreases. */
  lemma FillMonotone(s: Session, j: nat, k: nat)
    requires Inv(s) && j <= k
    ensures Ticks(s, j).fillLevel <= Ticks(s, k).fillLevel <= FullLevel
  {
    TicksAdd(s, j, k - j);
    TicksRaise(s, j);
    TicksRaise(Ticks(s, j), k - j);
  }

  /**
   * While the interval runs, each firing adds exactly one: after `k` firings
   * the level has risen by `k`, the interval is still active until the level
   * reaches full, and it stops on exactly that firing, scheduling the settle.
   */
  lemma {:induction false} TicksCount(s: Session, k: nat)
    requires Inv(s) && s.intervalActive
    requires s.fillLevel + k <= FullLevel
    ensures Ticks(s, k).fillLevel == s.fillLevel + k
    ensures Ticks(s, k).intervalActive <==> s.fillLevel + k < FullLevel
    ensures Ticks(s, k).settlePending <==> s.fillLevel + k == FullLevel
    decreases k
  {
    if k > 0 {
      var t := Tick(s);
      assert Inv(t) && t.fillLevel == s.fillLevel + 1;
      assert Ticks(s, k) == Ticks(t, k - 1);
      if t.intervalActive {
        TicksCount(t, k - 1);
      } else {
        assert k == 1;
      }
    }
  }

  /** While a pour from an idle cup runs, every firing before the 100th leaves the interval running below full. */
  lemma PourBelowFull(s: Session, b: Beverage, k: nat)
    requires Inv(s) && !s.Busy() && k < Steps
    ensures Ticks(Dispense(s, b), k).intervalActive
    ensures Ticks(Dispense(s, b), k).fillLevel == k * Increment
  {
    TicksCount(Dispense(s, b), k);
  }

  /**
   * A pour from an idle cup reaches full on exactly the 100th (`Steps`-th)
   * firing, which also stops the interval and schedules the settle; any
   * further firing changes nothing.
   */
  lemma PourReachesFull(s: Session, b: Beverage, extra: nat)
    requires Inv(s) && !s.Busy()
    ensures Ticks(Dispense(s, b), Steps).fillLevel == FullLevel
    ensures !Ticks(Dispense(s, b), Steps).intervalActive && Ticks(Dispense(s, b), Steps).settlePending
    ensures Ticks(Dispense(s, b), Steps + extra) == Ticks(Dispense(s, b), Steps)
  {
    var d := Dispense(s, b);
    TicksCount(d, Steps);
    TicksAdd(d, Steps, extra);
    TicksAfterStop(Ticks(d, Steps), extra);
  }

  /**
   * After the 100th firing the settle ends the pour with a full cup of the
   * chosen drink and the garnish that was chosen before it.
   */
  lemma PourSettles(s: Session, b: Beverage)
    requires Inv(s) && !s.Busy()
    ensures var done := Settle(Ticks(Dispense(s, b), Steps));
            done.isFull && !done.isDispensing && done.fillLevel == FullLevel &&
            done.beverage == Some(b) && SameGarnish(s, done) && Inv(done)
  {
    var d := Dispense(s, b);
    TicksCount(d, Steps);
    TicksRaise(d, Steps);
  }

  /** Once a drink is selected, further selections are ignored until the cup is reset. */
  lemma SelectionLocked(s: Session, b: Beverage, other: Beverage, k: nat)
    requires Inv(s) && !s.Busy()
    ensures var t := Ticks(Dispense(s, b), k);
            Dispense(t, other) == t && t.beverage == Some(b)
    ensures var t := Settle(Ticks(Dispense(s, b), k));
            Dispense(t, other) == t && t.beverage == Some(b)
  {
    TicksRaise(Dispense(s, b), k);
  }

  /** Turning ice on and then off again restores the session exactly. */
  lemma IceTwiceRestores(s: Session, clock1: seq<int>, draws1: seq<real>, clock2: seq<int>, draws2: seq<real>)
    requires Inv(s) && !s.Busy() && !s.addIce
    requires ValidClock(clock1) && ValidDraws(draws1) && ValidClock(clock2) && ValidDraws(draws2)
    ensures ToggleIce(s, clock1, draws1).addIce && |ToggleIce(s, clock1, draws1).iceCubes| == CubeCount
    ensures ToggleIce(ToggleIce(s, clock1, draws1), clock2, draws2) == s
  {
  }

  /** Toggling lemon twice is the identity. */
  lemma LemonTwiceRestores(s: Session)
    ensures ToggleLemon(ToggleLemon(s)) == s
  {
  }

  /** The events that drive a session: button presses and timer firings. */
  datatype Event =
    | Select(b: Beverage)
    | IntervalFires
    | SettleFires
    | IceButton(clock: seq<int>, draws: seq<real>)
    | LemonButton
    | NewCupButton
    | SodaButton
    | BackButton

  /**
   * Whether an event can occur: a timer fires only while pending, a button
   * fires only while it is rendered and enabled, and the random source
   * supplies a full batch of draws in [0, 1) and the clock one reading per cube. The four handler buttons whose
   * handler checks the busy guard itself are always allowed.
   */
  predicate Enabled(s: Session, e: Event)
  {
    match e
    case Select(_) => true
    case IntervalFires => s.intervalActive
    case SettleFires => s.settlePending
    case IceButton(clock, draws) => ValidClock(clock) && ValidDraws(draws)
    case LemonButton => true
    case NewCupButton => s.isFull
    case SodaButton => !s.Busy() && !s.showSodaMenu
    case BackButton => !s.isFull && s.showSodaMenu
  }

  function Apply(s: Session, e: Event): (r: Session)
    requires Enabled(s, e)
    ensures Inv(s) ==> Inv(r)
  {
    match e
    case Select(b) => Dispense(s, b)
    case IntervalFires => Tick(s)
    case SettleFires => Settle(s)
    case IceButton(clock, draws) => ToggleIce(s, clock, draws)
    case LemonButton => ToggleLemon(s)
    case NewCupButton => NewCup(s)
    case SodaButton => OpenSodaMenu(s)
    case BackButton => CloseSodaMenu(s)
  }

  /** Every event of the trace is enabled in the session it reaches. */
  predicate Admissible(s: Session, trace: seq<Event>)
    decreases |trace|
  {
    trace == [] || (Enabled(s, trace[0]) && Admissible(Apply(s, trace[0]), trace[1..]))
  }

  function Run(s: Session, trace: seq<Event>): Session
    requires Admissible(s, trace)
    decreases |trace|
  {
    if trace == [] then s else Run(Apply(s, trace[0]), trace[1..])
  }

  /** Every admissible trace keeps the session invariant. */
  lemma {:induction false} RunKeepsInv(s: Session, trace: seq<Event>)
    requires Inv(s) && Admissible(s, trace)
    ensures Inv(Run(s, trace))
    decreases |trace|
  {
    if trace != [] {
      RunKeepsInv(Apply(s, trace[0]), trace[1..]);
    }
  }

  /**
   * From mount, whatever the user and the timers do, the cup is never both
   * pouring and full, its level stays within 0..100, and a drink is selected
   * exactly while it is pouring or full.
   */
  lemma NeverPouringAndFull(trace: seq<Event>)
    requires Admissible(Initial(), trace)
    ensures var s := Run(Initial(), trace);
            !(s.isDispensing && s.isFull) && s.fillLevel <= FullLevel &&
            (s.beverage.Some? <==> s.isDispensing || s.isFull)
  {
    RunKeepsInv(Initial(), trace);
  }
}
