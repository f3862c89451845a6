/** One row of a node's routing table: the mutable `RoutingEntry` record. */
module Router {
  import opened Text

  /** A link or path cost: a non-negative whole number, or infinity for "unreachable". */
  datatype Cost = Fin(value: nat) | Inf

  /**
   * 2^53: every whole number up to this one is exactly a double. A larger
   * cost is rounded by `float()`, and one of about 1.8 * 10^308 or more becomes
   * infinity; `Fin` keeps every whole number exactly.
   */
  const MaxExactWhole: nat := 0x20_0000_0000_0000

  /** The cost a parsed `float` stands for; only non-negative values are costs. */
  function CostOfFloat(f: Float): Cost
    requires !f.IsNegative()
  {
    match f
    case Number(_, m) => Fin(m)
    case Infinity(_) => Inf
  }

  /** The next-hop value the command layer writes into a route it invalidates. */
  const NoHop: int := -1

  /** The fields of an entry as a value, for specifications. */
  datatype EntryState = EntryState(nextHop: int, cost: Cost, updated: int)

  class RoutingEntry {
    /** Never reassigned after construction. */
    const destinationId: int
    var nextHopId: int
    var cost: Cost
    /** A clock reading; the clock is passed in by the caller. */
    var lastUpdateTime: int

    /** Stores the three given fields as they are, with no validation. */
    constructor (destinationId: int, nextHopId: int, cost: Cost, now: int)
      ensures this.destinationId == destinationId
      ensures this.nextHopId == nextHopId && this.cost == cost
      ensures lastUpdateTime == now
    {
      this.destinationId := destinationId;
      this.nextHopId := nextHopId;
      this.cost := cost;
      lastUpdateTime := now;
    }

    function View(): EntryState
      reads this
    {
      EntryState(nextHopId, cost, lastUpdateTime)
    }
  }
}
