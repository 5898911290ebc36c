/**
 * The dispenser session as a value, and one transition per event that can
 * change it: the four button handlers, the two soda-menu buttons, one firing
 * of the fill interval and the settle timeout. Timers are modelled as two
 * flags (an interval is active, a settle timeout is pending) and the
 * interval closure's running total `currentFill`; a timer that has been
 * cleared, or never started, never fires, so its transition leaves the
 * session unchanged.
 */
module PourSession {
  import opened Wrappers
  import opened Beverages
  import opened IceCubes

  /** Fill timing: a pour lasts `Duration` time units, ticking every `IntervalTime`. */
  const Duration: nat := 3000
  const IntervalTime: nat := 30
  const FullLevel: nat := 100
  const Steps: nat := Duration / IntervalTime
  const Increment: nat := FullLevel / Steps

  /** Both divisions of the fill timing are exact, so whole numbers model them without rounding. */
  lemma FillTimingExact()
    ensures Steps * IntervalTime == Duration
    ensures Increment * Steps == FullLevel
    ensures Steps == 100 && Increment == 1
  {
  }

  datatype Session = Session(
    beverage: Option<Beverage>,
    isDispensing: bool,
    fillLevel: nat,
    addIce: bool,
    addLemon: bool,
    iceCubes: seq<IceCube>,
    showSodaMenu: bool,
    isFull: bool,
    currentFill: nat,
    intervalActive: bool,
    settlePending: bool)
  {
    /** The guard every handler checks: a pour is running or the cup is full. */
    predicate Busy()
    {
      isDispensing || isFull
    }
  }

  /** The ice flag and its cubes agree: no cubes when off, a full batch in bounds when on. */
  predicate IceConsistent(s: Session)
  {
    if s.addIce then WellFormed(s.iceCubes) else s.iceCubes == []
  }

  /** The session invariant kept by every transition. */
  predicate Inv(s: Session)
  {
    // the two phases exclude each other, and a drink is chosen exactly while one holds
    !(s.isDispensing && s.isFull) &&
    (s.Busy() <==> s.beverage.Some?) &&
    // fill level bounds
    s.fillLevel <= FullLevel &&
    (s.isFull ==> s.fillLevel == FullLevel) &&
    (!s.Busy() ==> s.fillLevel == 0) &&
    // at most one timer, and one exactly while dispensing
    !(s.intervalActive && s.settlePending) &&
    (s.isDispensing <==> s.intervalActive || s.settlePending) &&
    (s.intervalActive ==> s.currentFill == s.fillLevel < FullLevel) &&
    (s.settlePending ==> s.fillLevel == FullLevel) &&
    // the soda menu is closed whenever the selection buttons are disabled
    (s.Busy() ==> !s.showSodaMenu) &&
    IceConsistent(s)
  }

  /** The defaults: no drink, an empty cup, no garnish, menu closed, no timer pending. */
  predicate IsDefault(s: Session)
  {
    s.beverage == None && !s.isDispensing && s.fillLevel == 0 && !s.isFull &&
    !s.addIce && !s.addLemon && s.iceCubes == [] && !s.showSodaMenu &&
    !s.intervalActive && !s.settlePending
  }

  /** The session when the widget mounts. */
  function Initial(): (s: Session)
    ensures IsDefault(s) && Inv(s)
  {
    Session(None, false, 0, false, false, [], false, false, 0, false, false)
  }

  /** Garnish: what a pour never touches. */
  predicate SameGarnish(s: Session, t: Session)
  {
    s.addIce == t.addIce && s.addLemon == t.addLemon && s.iceCubes == t.iceCubes
  }

  /** Selecting a drink: ignored while busy, otherwise starts a pour from an empty cup. */
  function Dispense(s: Session, b: Beverage): (r: Session)
    ensures s.Busy() ==> r == s
    ensures !s.Busy() ==> r.beverage == Some(b) && r.isDispensing && r.fillLevel == 0 &&
                          !r.showSodaMenu && r.intervalActive && r.currentFill == 0
    ensures Inv(s) && !s.Busy() ==> !s.intervalActive && !s.settlePending
    ensures SameGarnish(s, r) && r.isFull == s.isFull && r.settlePending == s.settlePending
    ensures Inv(s) ==> Inv(r)
  {
    if s.Busy() then s
    else s.(beverage := Some(b), isDispensing := true, fillLevel := 0, showSodaMenu := false,
            currentFill := 0, intervalActive := true)
  }

  /** One firing of the fill interval: add the increment, and on reaching full clamp, stop and schedule the settle. */
  function Tick(s: Session): (r: Session)
    ensures !s.intervalActive ==> r == s
    ensures r == s.(fillLevel := r.fillLevel, currentFill := r.currentFill,
                    intervalActive := r.intervalActive, settlePending := r.settlePending)
    ensures Inv(s) ==> Inv(r) && s.fillLevel <= r.fillLevel <= FullLevel
    ensures Inv(s) && s.intervalActive ==> r.fillLevel == s.fillLevel + Increment
    ensures Inv(s) && s.intervalActive ==>
              (r.intervalActive <==> r.fillLevel < FullLevel) &&
              (r.settlePending <==> r.fillLevel == FullLevel)
  {
    if !s.intervalActive then s
    else
      var fill := s.currentFill + Increment;
      if fill >= FullLevel then
        s.(currentFill := fill, fillLevel := FullLevel, intervalActive := false, settlePending := true)
      else
        s.(currentFill := fill, fillLevel := fill)
  }

  /** The settle timeout: the pour ends and the cup is full. */
  function Settle(s: Session): (r: Session)
    ensures !s.settlePending ==> r == s
    ensures r == s.(isDispensing := r.isDispensing, isFull := r.isFull, settlePending := r.settlePending)
    ensures s.settlePending ==> !r.isDispensing && r.isFull && !r.settlePending
    ensures Inv(s) ==> Inv(r)
  {
    if !s.settlePending then s
    else s.(isDispensing := false, isFull := true, settlePending := false)
  }

  /** The ice button: ignored while busy; otherwise drops a fresh batch or removes all cubes. */
  function ToggleIce(s: Session, clock: seq<int>, draws: seq<real>): (r: Session)
    requires ValidClock(clock) && ValidDraws(draws)
    ensures s.Busy() ==> r == s
    ensures r == s.(addIce := r.addIce, iceCubes := r.iceCubes)
    ensures !s.Busy() ==> r.addIce == !s.addIce
    ensures !s.Busy() && r.addIce ==> r.iceCubes == MakeCubes(clock, draws)
    ensures !s.Busy() && !r.addIce ==> r.iceCubes == []
    ensures Inv(s) ==> Inv(r)
  {
    if s.Busy() then s
    else if !s.addIce then s.(addIce := true, iceCubes := MakeCubes(clock, draws))
    else s.(addIce := false, iceCubes := [])
  }

  /** The lemon button: ignored while busy, otherwise flips the flag. */
  function ToggleLemon(s: Session): (r: Session)
    ensures s.Busy() ==> r == s
    ensures !s.Busy() ==> r == s.(addLemon := !s.addLemon)
    ensures Inv(s) ==> Inv(r)
  {
    if s.Busy() then s else s.(addLemon := !s.addLemon)
  }

  /** The new-cup button: clears every state cell except the dispensing flag, which it does not touch. */
  function NewCup(s: Session): (r: Session)
    ensures r.isDispensing == s.isDispensing
    ensures r.intervalActive == s.intervalActive && r.settlePending == s.settlePending
    ensures Inv(s) && s.isFull ==> IsDefault(r) && Inv(r)
    ensures Inv(s) && s.isFull ==> r == Initial().(currentFill := s.currentFill)
  {
    s.(isFull := false, fillLevel := 0, beverage := None, addIce := false, addLemon := false,
       iceCubes := [], showSodaMenu := false)
  }

  /** The soda button opens the soda menu. */
  function OpenSodaMenu(s: Session): (r: Session)
    ensures r.showSodaMenu
    ensures r == s.(showSodaMenu := r.showSodaMenu)
    ensures Inv(s) && !s.Busy() ==> Inv(r)
  {
    s.(showSodaMenu := true)
  }

  /** The back button closes the soda menu. */
  function CloseSodaMenu(s: Session): (r: Session)
    ensures !r.showSodaMenu
    ensures r == s.(showSodaMenu := r.showSodaMenu)
    ensures Inv(s) ==> Inv(r)
  {
    s.(showSodaMenu := false)
  }

  /** `n` successive firings of the fill interval. */
  function Ticks(s: Session, n: nat): Session
    decreases n
  {
    if n == 0 then s else Ticks(Tick(s), n - 1)
  }
}
