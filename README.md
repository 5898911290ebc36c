# Smart dispenser session, modelled in Dafny

This project models the beverage-dispenser widget of the Summa Padel front-end
(`SmartDispenser.tsx`): one session of filling a cup. The user picks a drink
(water, or a soda from a sub-menu: Fanta, Coca Cola, Sprite). A periodic timer
then raises the fill level from 0 to 100. A short settle delay follows, after
which the cup is full. Ice and lemon may be toggled while the dispenser is
idle, and a "New Cup" button resets everything once the cup is full.

Layout:

- `wrappers.dfy` (`Wrappers`): `Option`, the source's `null`.
- `beverages.dfy` (`Beverages`): the four drinks and the configuration table. The lookup of the current configuration is `Dispenser.CurrentConfig`.
- `ice.dfy` (`IceCubes`): the ice-cube placement records and the batch dropped when ice is turned on.
- `session.dfy` (`PourSession`): the session as a value (`Session`), its invariant `Inv`, and one transition per handler or timer callback.
- `properties.dfy` (`PourProperties`): lemmas about whole pours, and about every sequence of events from mount (`Event`, `Run`).
- `dispenser.dfy` (`SmartDispenser`): class `Dispenser`. Its fields are the widget's state cells, and its methods update them in place. Each handler and timer method is proved to perform the matching `PourSession` transition and to keep `Inv`. `Pour` drives a whole pour through those methods and is proved against its own outcome.

The fill timing is `steps = 3000 / 30 = 100` and `increment = 100 / steps = 1`.
Both divisions are exact, so the fill level only takes the whole numbers
0..100 and is modelled as a `nat`. Timers are modelled as follows:

- The interval closure's running total is the field `currentFill`.
- The pending interval and the pending settle timeout are two ghost flags, `intervalActive` and `settlePending`.
- A firing of each timer is a separate event (`Tick`, `Settle`).
- A cleared timer never fires, so the pure transitions leave the session unchanged when their timer is not pending. The methods require it to be pending.

Two inputs from the environment become parameters:

- The clock (`Date.now()`) is read once per cube while a batch is built. The model takes these five readings as a parameter `clock`, so it can express a clock that moves during the batch.
- The random source (`Math.random()`) is a sequence of 20 draws in [0, 1), used in the order the source takes them: x, y, rotation, size for each of the five cubes.

Two points about the handlers:

- The new-cup handler does not touch `isDispensing` and cancels no timer. Its button is rendered only when the cup is full (SmartDispenser.tsx:349-358), so the model requires `isFull`. The invariant shows that then nothing is dispensing and no timer is pending.
- The two soda-menu buttons (open, back) also change the session. They are modelled, with the conditions under which they are rendered and enabled.

## Model

| member | source | states |
|---|---|---|
| Beverages.Config | SmartDispenser.tsx:20-49 | the table entry of each drink; only water has no bubbles |
| IceCubes.Cube | SmartDispenser.tsx:76-83 | cube `i` built at clock reading `time` has id `time + i` and delay `i * 0.12`; for draws in [0,1) it lies in x∈[10,70), y∈[10,80), rotation∈[0,360), size∈[24,32) |
| IceCubes.MakeCubes | SmartDispenser.tsx:76-83 | the batch has exactly 5 cubes, all in bounds, with strictly increasing reveal delays; if the clock did not go backwards during the batch, the ids are strictly increasing and so pairwise distinct |
| IceCubes.ClockStepBackDuplicatesId | SmartDispenser.tsx:76-77 | a clock stepping back 1 ms between the first two cubes gives them the same id |
| PourSession.FillTimingExact | SmartDispenser.tsx:114-117 | 3000/30 and 100/steps divide exactly: 100 steps of increment 1 |
| PourSession.Initial | SmartDispenser.tsx:61-68 | the mount state is the default session and satisfies the invariant |
| PourSession.Dispense | SmartDispenser.tsx:106-119 | no-op while dispensing or full; otherwise selects the drink, starts dispensing from level 0, closes the soda menu and starts the interval at 0; no timer was pending before; garnish untouched; keeps the invariant |
| PourSession.Tick | SmartDispenser.tsx:120-132 | only fill and timer state change; level never decreases, never exceeds 100, rises by exactly the increment; the interval stays active exactly while below 100 and the settle is scheduled exactly at 100; keeps the invariant |
| PourSession.Settle | SmartDispenser.tsx:125-128 | clears dispensing and sets full, nothing else; keeps the invariant |
| PourSession.ToggleIce | SmartDispenser.tsx:70-89 | no-op while busy; otherwise flips the ice flag, turning on drops the generated batch and turning off empties the cubes; only ice state changes; keeps the invariant |
| PourSession.ToggleLemon | SmartDispenser.tsx:91-94 | no-op while busy; otherwise flips the lemon flag and changes nothing else; keeps the invariant |
| PourSession.NewCup | SmartDispenser.tsx:96-104 | leaves the dispensing flag and timers untouched; from a full cup, every state cell is at its default and no timer is pending, and the session equals the mount state except for the interval closure's stale running total |
| PourSession.OpenSodaMenu | SmartDispenser.tsx:416-418 | opens the soda menu and nothing else; keeps the invariant when idle |
| PourSession.CloseSodaMenu | SmartDispenser.tsx:454-455 | closes the soda menu and nothing else; keeps the invariant |
| PourProperties.TicksAdd | SmartDispenser.tsx:120-132 | `j` firings then `k` firings equal `j + k` firings |
| PourProperties.TicksAfterStop | SmartDispenser.tsx:124 | once the interval is cleared, further firings change nothing |
| PourProperties.TicksRaise | SmartDispenser.tsx:120-132 | any number of firings keeps the invariant, never lowers the level, stays at most 100 and touches only fill and timer state |
| PourProperties.FillMonotone | SmartDispenser.tsx:120-132 | within a pour the fill level is non-decreasing over time |
| PourProperties.TicksCount | SmartDispenser.tsx:120-132 | each firing adds exactly one; the interval stops on the firing that reaches 100 and no other, which schedules the settle |
| PourProperties.PourBelowFull | SmartDispenser.tsx:114-131 | after a selection, each of the first 99 firings leaves the interval active at level `k` |
| PourProperties.PourReachesFull | SmartDispenser.tsx:114-128 | after a selection, exactly 100 firings reach level 100, stop the interval and schedule the settle; further firings change nothing |
| PourProperties.PourSettles | SmartDispenser.tsx:125-128 | the settle after the 100th firing leaves a full, non-dispensing cup of the chosen drink with the garnish chosen before |
| PourProperties.SelectionLocked | SmartDispenser.tsx:107 | once a drink is selected, other selections are ignored during the pour and after the settle |
| PourProperties.IceTwiceRestores | SmartDispenser.tsx:70-89 | from ice off, on then off restores the exact session (ice off, no cubes); on yields 5 cubes |
| PourProperties.LemonTwiceRestores | SmartDispenser.tsx:91-94 | toggling lemon twice is the identity |
| PourProperties.Apply | SmartDispenser.tsx:70-132 | every enabled event keeps the invariant |
| PourProperties.RunKeepsInv | SmartDispenser.tsx:70-132 | every admissible sequence of events keeps the invariant |
| PourProperties.NeverPouringAndFull | SmartDispenser.tsx:60-135 | from mount, the cup is never dispensing and full at once, the level stays in 0..100, and a drink is selected exactly while dispensing or full |
| SmartDispenser.Dispenser.constructor | SmartDispenser.tsx:61-68 | the mount state is the default session |
| SmartDispenser.Dispenser.CurrentConfig | SmartDispenser.tsx:135 | a configuration exists exactly while dispensing or full, and it is the selected drink's entry |
| SmartDispenser.Dispenser.Dispense | SmartDispenser.tsx:106-119 | the fields after the call are `PourSession.Dispense` of those before; the invariant is kept |
| SmartDispenser.Dispenser.Tick | SmartDispenser.tsx:120-132 | the fields after one interval firing are `PourSession.Tick` of those before |
| SmartDispenser.Dispenser.Settle | SmartDispenser.tsx:125-128 | the fields after the settle are `PourSession.Settle` of those before |
| SmartDispenser.Dispenser.ToggleIce | SmartDispenser.tsx:70-89 | the fields after the call are `PourSession.ToggleIce` of those before |
| SmartDispenser.Dispenser.ToggleLemon | SmartDispenser.tsx:91-94 | the fields after the call are `PourSession.ToggleLemon` of those before |
| SmartDispenser.Dispenser.NewCup | SmartDispenser.tsx:96-104 | callable only when full; afterwards every state cell is at its default and no timer is pending |
| SmartDispenser.Dispenser.OpenSodaMenu | SmartDispenser.tsx:416-418 | opens the soda menu; callable only when the soda button is rendered and enabled |
| SmartDispenser.Dispenser.CloseSodaMenu | SmartDispenser.tsx:454-455 | closes the soda menu; callable only when the back button is rendered |
| SmartDispenser.Dispenser.Pour | SmartDispenser.tsx:114-132 | one pour from an idle cup fires the interval exactly 100 times and ends full at level 100 with the chosen drink and unchanged garnish |

## Left out

- Rendering, animation parameters, icons, and the gradient and shadow strings of the configuration table: these are presentation. The table keeps only each drink's name and bubble flag.
- Wall-clock timing (the 30-unit interval and the 500-unit settle delay), React's asynchronous state batching and stale closures. Timer firings are discrete events applied one at a time.
- The randomly chosen durations of the bubble animation: cosmetic.
- IceCubes.Cube: delays and placements are exact reals. Floating-point rounding is not modelled, and it could in principle round a placement onto its upper bound.
- IceCubes.MakeCubes: distinct cube ids are promised only when the clock does not go backwards during the batch. The source gives no stronger guarantee: `ClockStepBackDuplicatesId` shows a duplicate id otherwise. So the session invariant requires a full batch in bounds when ice is on, but not distinct ids.
- PourSession.Dispense: takes a drink, not the source's nullable drink type. All four call sites pass a literal drink, so selecting "no drink" is not modelled.
- The lemon slices (always two, a fixed count shown when the flag is set) are rendering only.
- Authentication, booking, profile, navigation and the backend client (`app/`): remote I/O glue, not part of this model.
