/**
 * The drinks the dispenser offers and their configuration table
 * (`beverageConfigs` in SmartDispenser.tsx). Only the behavioural part of each
 * entry is kept: its display name and whether the liquid shows bubbles.
 */
module Beverages {
  datatype Beverage = Water | Fanta | Coca | Sprite

  datatype BeverageConfig = BeverageConfig(name: string, hasBubbles: bool)

  /** The configuration-table entry of a drink: only water is still. */
  function Config(b: Beverage): (c: BeverageConfig)
    ensures c.hasBubbles <==> b != Water
  {
    match b
    case Water => BeverageConfig("Water", false)
    case Fanta => BeverageConfig("Fanta", true)
    case Coca => BeverageConfig("Coca Cola", true)
    case Sprite => BeverageConfig("Sprite", true)
  }
}
