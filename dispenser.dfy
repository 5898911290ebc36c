/**
 * The dispenser widget: its eight state cells as fields that the handlers
 * update in place, the interval closure's running total, and two ghost flags
 * standing for the pending interval and settle timeout. Every method is
 * proved against the matching session transition, so the properties proved
 * about those transitions hold of the widget.
 */
module SmartDispenser {
  import opened Wrappers
  import opened Beverages
  import opened IceCubes
  import PourSession

  class Dispenser {
    var selectedBeverage: Option<Beverage>
    var isDispensing: bool
    var fillLevel: nat
    var addIce: bool
    var addLemon: bool
    var iceCubes: seq<IceCube>
    var showSodaMenu: bool
    var isFull: bool
    /** The running total kept by the fill interval's closure. */
    var currentFill: nat
    ghost var intervalActive: bool
    ghost var settlePending: bool

    /** The widget's state as a session value. */
    ghost function State(): PourSession.Session
      reads this
    {
      PourSession.Session(selectedBeverage, isDispensing, fillLevel, addIce, addLemon, iceCubes,
                          showSodaMenu, isFull, currentFill, intervalActive, settlePending)
    }

    ghost predicate Valid()
      reads this
    {
      PourSession.Inv(State())
    }

    /** Mounting the widget: every cell at its default. */
    constructor ()
      ensures Valid() && State() == PourSession.Initial()
    {
      selectedBeverage, isDispensing, fillLevel := None, false, 0;
      addIce, addLemon, iceCubes := false, false, [];
      showSodaMenu, isFull, currentFill := false, false, 0;
      intervalActive, settlePending := false, false;
    }

    /** The configuration of the selected drink; there is one exactly while a pour runs or the cup is full. */
    function CurrentConfig(): (c: Option<BeverageConfig>)
      reads this
      requires Valid()
      ensures c.Some? <==> isDispensing || isFull
      ensures c.Some? ==> selectedBeverage.Some? && c.value == Config(selectedBeverage.value)
    {
      // The source tests the selection for truthiness; every drink key is a
      // non-empty string, so that is the same as testing it for `null`.
      match selectedBeverage
      case None => None
      case Some(b) => Some(Config(b))
    }

    method Dispense(b: Beverage)
      requires Valid()
      modifies this
      ensures Valid() && State() == PourSession.Dispense(old(State()), b)
    {
      if isDispensing || isFull {
        return;
      }
      selectedBeverage := Some(b);
      isDispensing := true;
      fillLevel := 0;
      showSodaMenu := false;
      currentFill := 0;
      intervalActive := true;
    }

    /** One firing of the fill interval. */
    method Tick()
      requires Valid() && intervalActive
      modifies this
      ensures Valid() && State() == PourSession.Tick(old(State()))
    {
      currentFill := currentFill + PourSession.Increment;
      if currentFill >= PourSession.FullLevel {
        fillLevel := PourSession.FullLevel;
        intervalActive := false;
        settlePending := true;
      } else {
        fillLevel := currentFill;
      }
    }

    /** The settle timeout scheduled by the final tick. */
    method Settle()
      requires Valid() && settlePending
      modifies this
      ensures Valid() && State() == PourSession.Settle(old(State()))
    {
      isDispensing := false;
      isFull := true;
      settlePending := false;
    }

    /** The ice button; `clock` holds the clock's readings and `draws` the random source's output. */
    method ToggleIce(clock: seq<int>, draws: seq<real>)
      requires Valid() && ValidClock(clock) && ValidDraws(draws)
      modifies this
      ensures Valid() && State() == PourSession.ToggleIce(old(State()), clock, draws)
    {
      if isDispensing || isFull {
        return;
      }
      if !addIce {
        addIce := true;
        iceCubes := MakeCubes(clock, draws);
      } else {
        addIce := false;
        iceCubes := [];
      }
    }

    method ToggleLemon()
      requires Valid()
      modifies this
      ensures Valid() && State() == PourSession.ToggleLemon(old(State()))
    {
      if isDispensing || isFull {
        return;
      }
      addLemon := !addLemon;
    }

    /** The new-cup button, which is rendered only once the cup is full. */
    method NewCup()
      requires Valid() && isFull
      modifies this
      ensures Valid() && State() == PourSession.NewCup(old(State()))
      ensures PourSession.IsDefault(State())
    {
      isFull := false;
      fillLevel := 0;
      selectedBeverage := None;
      addIce := false;
      addLemon := false;
      iceCubes := [];
      showSodaMenu := false;
    }

    /** The soda button, rendered in the main menu and enabled only when idle. */
    method OpenSodaMenu()
      requires Valid() && !isDispensing && !isFull && !showSodaMenu
      modifies this
      ensures Valid() && State() == PourSession.OpenSodaMenu(old(State()))
    {
      showSodaMenu := true;
    }

    /** The back button, rendered in the soda menu. */
    method CloseSodaMenu()
      requires Valid() && !isFull && showSodaMenu
      modifies this
      ensures Valid() && State() == PourSession.CloseSodaMenu(old(State()))
    {
      showSodaMenu := false;
    }

    /**
     * One whole pour from an idle cup, driving the timers in the order they
     * fire: the interval fires until it clears itself, then the settle
     * timeout. It fires exactly `Steps` (= 100) times and leaves a full cup.
     */
    method Pour(b: Beverage) returns (ticks: nat)
      requires Valid() && !isDispensing && !isFull
      modifies this
      ensures Valid() && isFull && !isDispensing && fillLevel == PourSession.FullLevel
      ensures ticks == PourSession.Steps
      ensures selectedBeverage == Some(b)
      ensures addIce == old(addIce) && addLemon == old(addLemon) && iceCubes == old(iceCubes)
    {
      Dispense(b);
      ticks := 0;
      while fillLevel < PourSession.FullLevel
        invariant Valid() && isDispensing && selectedBeverage == Some(b)
        invariant addIce == old(addIce) && addLemon == old(addLemon) && iceCubes == old(iceCubes)
        invariant fillLevel == ticks * PourSession.Increment
        invariant intervalActive <==> fillLevel < PourSession.FullLevel
        decreases PourSession.FullLevel - fillLevel
      {
        Tick();
        ticks := ticks + 1;
      }
      Settle();
    }
  }
}
