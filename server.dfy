/**
 * The per-node state of a distance-vector server: the fields of `DVServer`.
 * Its routing engine (socket, Bellman-Ford update, liveness sweep, threads)
 * is not part of this model.
 */
module Server {
  import opened Router

  datatype Address = Address(ip: string, port: int)

  /** A configured direct link: the neighbour's address and the current link cost. */
  datatype Neighbor = Neighbor(ip: string, port: int, cost: Cost)

  /** Everything the operator commands read or write, as one value. */
  datatype NodeState = NodeState(
    neighbors: map<int, Neighbor>,
    lastHeard: map<int, int>,
    table: map<int, EntryState>,
    packetsReceived: nat,
    running: bool)

  class DVServer {
    const serverId: int
    const serverIp: string
    const serverPort: int
    /** destination id -> its entry */
    var routingTable: map<int, RoutingEntry>
    /** neighbour id -> address and link cost */
    var neighbors: map<int, Neighbor>
    /** neighbour id -> time of the last news from it */
    var neighborLastUpdate: map<int, int>
    const allServers: map<int, Address>
    const updateInterval: int
    var packetsReceived: nat
    var running: bool

    /**
     * Each destination has its own entry object, and no neighbour id is this
     * server's id or the invalidation sentinel (neighbour ids are single
     * decimal digits other than the own id in the topology file).
     */
    ghost predicate Valid()
      reads this
    {
      && (forall d, e :: d in routingTable && e in routingTable && d != e ==> routingTable[d] != routingTable[e])
      && serverId !in neighbors
      && NoHop !in neighbors
    }

    function Table(): map<int, EntryState>
      reads this`routingTable, routingTable.Values
    {
      map d | d in routingTable :: routingTable[d].View()
    }

    function State(): NodeState
      reads this, routingTable.Values
    {
      NodeState(neighbors, neighborLastUpdate, Table(), packetsReceived, running)
    }

    /**
     * The state right after start-up. The topology loader and the routing
     * table initialiser are outside this model, so their results are
     * parameters.
     */
    constructor (serverId: int, serverIp: string, serverPort: int, allServers: map<int, Address>,
                 neighbors: map<int, Neighbor>, routingTable: map<int, RoutingEntry>, updateInterval: int)
      requires forall d, e :: d in routingTable && e in routingTable && d != e ==> routingTable[d] != routingTable[e]
      requires serverId !in neighbors && NoHop !in neighbors
      ensures Valid()
      ensures this.serverId == serverId && this.serverIp == serverIp && this.serverPort == serverPort
      ensures this.allServers == allServers && this.updateInterval == updateInterval
      ensures this.neighbors == neighbors && this.routingTable == routingTable
      ensures neighborLastUpdate == map[] && packetsReceived == 0 && running
    {
      this.serverId := serverId;
      this.serverIp := serverIp;
      this.serverPort := serverPort;
      this.allServers := allServers;
      this.updateInterval := updateInterval;
      this.neighbors := neighbors;
      this.routingTable := routingTable;
      neighborLastUpdate := map[];
      packetsReceived := 0;
      running := true;
    }
  }
}
