/**
 * The operator command layer of a node: tokenising a command line,
 * dispatching it case-insensitively to one of six handlers, and the in-place
 * updates those handlers make to the node's links and routing table.
 *
 * The first half states each handler as a function from the node state
 * before the command to its reply and the state after it; the lemmas say what
 * those functions mean. The second half is `CommandHandler`, whose methods
 * change a `DVServer` in place and are proved to agree with the first half.
 */
module Commands {
  import opened Wrappers
  import opened Text
  import opened Ordered
  import opened Router
  import opened Server

  /** What a handler shows the operator besides its result line. */
  datatype Output = Silent | PacketCount(count: nat) | Routes(rows: seq<Row>)

  /** A handler's `(success, message)` pair, with what it shows. */
  datatype Reply = Reply(ok: bool, message: string, output: Output)

  function Fail(message: string): Reply {
    Reply(false, message, Silent)
  }

  const Done: Reply := Reply(true, "", Silent)

  const UpdateUsage := "Error: Invalid format. Usage: update <server1> <server2> <cost>"
  const BadIdOrCost := "Error: Invalid server ID or cost value"
  const NegativeCost := "Error: Cost cannot be negative"
  const NotAffected := "Error: Update does not affect this server"
  const NotDirectNeighbor := "Error: Not a direct neighbor"
  const StepUsage := "Error: step command takes no arguments"
  const PacketsUsage := "Error: packets command takes no arguments"
  const DisplayUsage := "Error: display command takes no arguments"
  const DisableUsage := "Error: Invalid format. Usage: disable <server-id>"
  const BadId := "Error: Invalid server ID"
  const DisableSelf := "Error: Cannot disable link to self"
  const NotNeighbor := "Error: Not a neighbor"
  const CrashUsage := "Error: crash command takes no arguments"

  // ================================================================ routing-table edits

  /** The entry a route through a lost neighbour is turned into. */
  function Unreachable(now: int): EntryState {
    EntryState(NoHop, Inf, now)
  }

  /** Every route whose next hop is `n` becomes unreachable with the sentinel next hop. */
  function InvalidateThrough(t: map<int, EntryState>, n: int, now: int): map<int, EntryState> {
    map d | d in t :: if t[d].nextHop == n then Unreachable(now) else t[d]
  }

  /** After a finite link-cost change, the route to `n` follows it only if it goes directly to `n`. */
  function RefreshDirectRoute(t: map<int, EntryState>, n: int, c: nat, now: int): map<int, EntryState> {
    if n in t && t[n].nextHop == n then t[n := EntryState(n, Fin(c), now)] else t
  }

  function WithLinkCost(nb: map<int, Neighbor>, n: int, c: Cost): map<int, Neighbor>
    requires n in nb
  {
    nb[n := nb[n].(cost := c)]
  }

  function AllLinksDown(nb: map<int, Neighbor>): map<int, Neighbor> {
    map k | k in nb :: nb[k].(cost := Inf)
  }

  /** Every route except the one to this server becomes unreachable; timestamps are kept. */
  function CrashTable(t: map<int, EntryState>, self: int): map<int, EntryState> {
    map d | d in t :: if d == self then t[d] else t[d].(nextHop := NoHop, cost := Inf)
  }

  /** The sentinel next hop only ever appears on an unreachable route. */
  predicate SentinelMeansUnreachable(t: map<int, EntryState>) {
    forall d :: d in t && t[d].nextHop == NoHop ==> t[d].cost == Inf
  }

  /** The route to this server, if present, is the zero-cost route to itself. */
  predicate SelfRoute(t: map<int, EntryState>, self: int) {
    self in t ==> t[self].nextHop == self && t[self].cost == Fin(0)
  }

  lemma InvalidateThroughEffect(t: map<int, EntryState>, n: int, now: int)
    requires n != NoHop
    ensures var r := InvalidateThrough(t, n, now);
      && r.Keys == t.Keys
      && (forall d :: d in t ==> (r[d] == t[d] <==> t[d].nextHop != n))
      && (forall d :: d in t && t[d].nextHop == n ==> r[d] == Unreachable(now))
      && (forall d :: d in r ==> r[d].nextHop != n)
  {
  }

  /** Invalidating twice through the same neighbour changes nothing the second time. */
  lemma InvalidateThroughIdempotent(t: map<int, EntryState>, n: int, now: int, later: int)
    requires n != NoHop
    ensures InvalidateThrough(InvalidateThrough(t, n, now), n, later) == InvalidateThrough(t, n, now)
  {
    var r := InvalidateThrough(t, n, now);
    assert forall d :: d in r ==> r[d].nextHop != n;
  }

  // ================================================================ argument parsing

  /** How the cost argument of `update` reads: a cost, not a number, or a negative number. */
  datatype CostArgument = Given(cost: Cost) | Unparsable | Negative

  /** `inf` in any letter case is infinity; anything else goes through `float()`. */
  function ReadCost(text: string): CostArgument {
    if Lower(text) == "inf" then Given(Inf)
    else match ParseFloat(text)
      case None => Unparsable
      case Some(f) => if f.IsNegative() then Negative else Given(CostOfFloat(f))
  }

  /** The module-level `parse_cost`: a cost, or nothing for text that is not a non-negative number. */
  function ParseCost(text: string): Option<Cost> {
    match ReadCost(text)
    case Given(c) => Some(c)
    case _ => None
  }

  /** The module-level `validate_server_id` over the half-open range `lo..hi`. */
  function ValidateServerId(text: string, lo: int, hi: int): (r: Option<int>)
    ensures r.Some? <==> ParseInt(text).Some? && lo <= ParseInt(text).value < hi
    ensures r.Some? ==> r == ParseInt(text)
  {
    match ParseInt(text)
    case Some(k) => if lo <= k < hi then Some(k) else None
    case None => None
  }

  /** The default range of `validate_server_id` is `range(1, 5)`. */
  function ValidateDefaultServerId(text: string): Option<int> {
    ValidateServerId(text, 1, 5)
  }

  lemma ValidateServerIdOfString(k: int, lo: int, hi: int)
    ensures ValidateServerId(IntToString(k), lo, hi) == if lo <= k < hi then Some(k) else None
  {
    ParseIntOfString(k);
  }

  lemma ReadCostOfNumeral(s: string)
    requires IsNumeral(s)
    ensures ReadCost(s) == Given(Fin(DigitsValue(s)))
  {
    assert Lower(s) != "inf" by {
      assert IsDigit(s[0]) && Lower(s)[0] == s[0];
    }
    ParseFloatNumeral(s);
  }

  /** `parse_cost` reads `str(n)` back as `n`, and `inf` as infinity. */
  lemma ParseCostOfString(n: nat)
    ensures ReadCost(NatToString(n)) == Given(Fin(n))
    ensures ParseCost(NatToString(n)) == Some(Fin(n))
    ensures ParseCost("inf") == Some(Inf)
  {
    NatToStringValue(n);
    ReadCostOfNumeral(NatToString(n));
  }

  // ================================================================ handlers

  /**
   * The checks `update <server1> <server2> <cost>` makes before it looks at
   * the links: on success, the other end of the link and the new cost.
   */
  function UpdateRequest(self: int, args: seq<string>): Result<(int, Cost), string> {
    if |args| != 3 then Err(UpdateUsage)
    else
      var first, second, cost := ParseInt(args[0]), ParseInt(args[1]), ReadCost(args[2]);
      if first.None? || second.None? || cost.Unparsable? then Err(BadIdOrCost)
      else if cost.Negative? then Err(NegativeCost)
      else if self != first.value && self != second.value then Err(NotAffected)
      else Ok((if first.value == self then second.value else first.value, cost.cost))
  }

  /** The new link cost to neighbour `n`, heard of at `now`, and what it does to the table. */
  function ApplyLinkCost(s: NodeState, n: int, c: Cost, now: int): NodeState
    requires n in s.neighbors
  {
    s.(neighbors := WithLinkCost(s.neighbors, n, c),
       lastHeard := s.lastHeard[n := now],
       table := if c == Inf then InvalidateThrough(s.table, n, now) else RefreshDirectRoute(s.table, n, c.value, now))
  }

  /** `update <server1> <server2> <cost>`. */
  function Update(s: NodeState, self: int, args: seq<string>, now: int): (Reply, NodeState) {
    match UpdateRequest(self, args)
    case Err(message) => (Fail(message), s)
    case Ok((n, c)) =>
      if n !in s.neighbors then (Fail(NotDirectNeighbor), s)
      else (Done, ApplyLinkCost(s, n, c, now))
  }

  /** `step`: the on-demand broadcast itself is outside this model. */
  function Step(s: NodeState, args: seq<string>): (Reply, NodeState) {
    if args != [] then (Fail(StepUsage), s) else (Done, s)
  }

  /** `packets`: report the received-packet counter and reset it. */
  function Packets(s: NodeState, args: seq<string>): (Reply, NodeState) {
    if args != [] then (Fail(PacketsUsage), s)
    else (Reply(true, "", PacketCount(s.packetsReceived)), s.(packetsReceived := 0))
  }

  /** `display`: show the routing table. */
  function Display(s: NodeState, self: int, args: seq<string>): (Reply, NodeState) {
    if args != [] then (Fail(DisplayUsage), s)
    else (Reply(true, "", Routes(RoutingTableRows(s.table, self))), s)
  }

  /** `disable <server-id>`. */
  function Disable(s: NodeState, self: int, args: seq<string>, now: int): (Reply, NodeState) {
    if |args| != 1 then (Fail(DisableUsage), s)
    else match ParseInt(args[0])
      case None => (Fail(BadId), s)
      case Some(n) =>
        if n == self then (Fail(DisableSelf), s)
        else if n !in s.neighbors then (Fail(NotNeighbor), s)
        else (Done, s.(neighbors := WithLinkCost(s.neighbors, n, Inf), table := InvalidateThrough(s.table, n, now)))
  }

  /** `crash`: take every link down, invalidate every route but the own one, stop. */
  function Crash(s: NodeState, self: int, args: seq<string>): (Reply, NodeState) {
    if args != [] then (Fail(CrashUsage), s)
    else (Done, s.(neighbors := AllLinksDown(s.neighbors), table := CrashTable(s.table, self), running := false))
  }

  /** Turns a handler's reply into the line `process_command` returns. */
  function Report(line: string, result: (Reply, NodeState)): (Reply, NodeState) {
    var r := result.0;
    (Reply(r.ok, if r.ok then line + " SUCCESS" else line + " " + r.message, r.output), result.1)
  }

  /** The six command names, the keys of the handler table. */
  const CommandNames: set<string> := {"update", "step", "packets", "display", "disable", "crash"}

  /** A stripped, non-empty command line split into its lower-cased first word and the rest. */
  function SplitCommand(line: string): (string, seq<string>)
    requires line != [] && !IsSpace(line[0])
  {
    WordsNonEmpty(line);
    var words := Words(line);
    (Lower(words[0]), words[1..])
  }

  /** The handler a command name selects. */
  function Dispatch(s: NodeState, self: int, command: string, args: seq<string>, now: int): (Reply, NodeState)
    requires command in CommandNames
  {
    if command == "update" then Update(s, self, args, now)
    else if command == "step" then Step(s, args)
    else if command == "packets" then Packets(s, args)
    else if command == "display" then Display(s, self, args)
    else if command == "disable" then Disable(s, self, args, now)
    else Crash(s, self, args)
  }

  /** `process_command`: strip, split, match the first word case-insensitively, run the handler. */
  function Process(s: NodeState, self: int, commandLine: string, now: int): (Reply, NodeState) {
    var line := Strip(commandLine);
    if line == [] then (Fail("Empty command"), s)
    else
      var (command, args) := SplitCommand(line);
      if command in CommandNames then Report(line, Dispatch(s, self, command, args, now))
      else (Fail(line + " Error: Unknown command"), s)
  }


  // ================================================================ display rows

  predicate Shown(t: map<int, EntryState>, self: int, d: int)
    requires d in t
  {
    t[d].nextHop != NoHop || d == self
  }

  /** The keys that are displayed, in the order given. */
  function ShownAmong(t: map<int, EntryState>, self: int, keys: seq<int>): (r: seq<int>)
    requires forall k :: k in keys ==> k in t
    ensures forall d :: d in r <==> d in keys && Shown(t, self, d)
    decreases |keys|
  {
    if keys == [] then []
    else
      var prefix := keys[..|keys| - 1];
      var last := keys[|keys| - 1];
      assert forall k :: k in prefix ==> k in keys;
      var init := ShownAmong(t, self, prefix);
      if Shown(t, self, last) then init + [last] else init
  }

  /** Filtering keeps the order of the keys. */
  lemma {:induction false} ShownAmongAscending(t: map<int, EntryState>, self: int, keys: seq<int>)
    requires forall k :: k in keys ==> k in t
    requires StrictlyAscending(keys)
    ensures StrictlyAscending(ShownAmong(t, self, keys))
    decreases |keys|
  {
    if keys != [] {
      var prefix := keys[..|keys| - 1];
      var last := keys[|keys| - 1];
      assert forall k :: k in prefix ==> k in keys;
      AscendingPrefix(keys, |keys| - 1);
      ShownAmongAscending(t, self, prefix);
      var init := ShownAmong(t, self, prefix);
      if Shown(t, self, last) {
        forall k | k in init
          ensures k < last
        {
          var i :| 0 <= i < |prefix| && prefix[i] == k;
        }
        AscendingAppend(init, last);
      }
    }
  }

  function ShownDestinations(t: map<int, EntryState>, self: int): seq<int> {
    SortedKeysMembers(t.Keys);
    ShownAmong(t, self, SortedKeys(t.Keys))
  }

  /** A cost as displayed: `inf`, or the whole number. */
  function CostText(c: Cost): string {
    match c
    case Inf => "inf"
    case Fin(v) => NatToString(v)
  }

  /** One displayed row: destination, next hop, cost. */
  datatype Row = Row(destination: int, nextHop: int, cost: Cost)

  /** The printed form of a row: `<destination> <next hop> <cost>`. */
  function RowText(row: Row): string {
    IntToString(row.destination) + " " + IntToString(row.nextHop) + " " + CostText(row.cost)
  }

  function RowOf(t: map<int, EntryState>, d: int): Row
    requires d in t
  {
    Row(d, t[d].nextHop, t[d].cost)
  }

  /** The rows for the destinations `ds`, in that order. */
  function Rows(t: map<int, EntryState>, ds: seq<int>): (rows: seq<Row>)
    requires forall d :: d in ds ==> d in t
    ensures |rows| == |ds|
    ensures forall i :: 0 <= i < |ds| ==> rows[i] == RowOf(t, ds[i])
  {
    if ds == [] then []
    else
      var last := ds[|ds| - 1];
      assert forall d :: d in ds[..|ds| - 1] ==> d in ds;
      Rows(t, ds[..|ds| - 1]) + [RowOf(t, last)]
  }

  function RoutingTableRows(t: map<int, EntryState>, self: int): seq<Row> {
    SortedKeysMembers(t.Keys);
    Rows(t, ShownDestinations(t, self))
  }

  /** One more key: the rows for the longer prefix are the shorter one's, plus that key's row if shown. */
  lemma RowsStep(t: map<int, EntryState>, self: int, keys: seq<int>, i: int)
    requires 0 <= i < |keys|
    requires forall k :: k in keys ==> k in t
    ensures var before := Rows(t, ShownAmong(t, self, keys[..i]));
      Rows(t, ShownAmong(t, self, keys[..i + 1]))
        == if Shown(t, self, keys[i]) then before + [RowOf(t, keys[i])] else before
  {
    assert keys[..i + 1][..i] == keys[..i];
    var shown := ShownAmong(t, self, keys[..i]);
    if Shown(t, self, keys[i]) {
      assert (shown + [keys[i]])[..|shown|] == shown;
    }
  }

  /** The loop of `_display_routing_table` over the given keys: one row per shown destination. */
  method CollectRows(t: map<int, EntryState>, self: int, keys: seq<int>) returns (rows: seq<Row>)
    requires forall k :: k in keys ==> k in t
    ensures rows == Rows(t, ShownAmong(t, self, keys))
  {
    rows := [];
    for i := 0 to |keys|
      invariant rows == Rows(t, ShownAmong(t, self, keys[..i]))
    {
      RowsStep(t, self, keys, i);
      var d := keys[i];
      if t[d].nextHop != NoHop || d == self {
        rows := rows + [Row(d, t[d].nextHop, t[d].cost)];
      }
    }
    assert keys[..|keys|] == keys;
  }

  /**
   * The display has one row per shown destination, in ascending destination
   * order, and leaves out exactly the invalidated routes to other servers.
   */
  lemma DisplayedRows(t: map<int, EntryState>, self: int)
    ensures var ds := ShownDestinations(t, self);
      && StrictlyAscending(ds)
      && (forall d :: d in ds <==> d in t && (t[d].nextHop != NoHop || d == self))
      && |RoutingTableRows(t, self)| == |ds|
      && forall i :: 0 <= i < |ds| ==> RoutingTableRows(t, self)[i] == Row(ds[i], t[ds[i]].nextHop, t[ds[i]].cost)
  {
    SortedKeysSpec(t.Keys);
    ShownAmongAscending(t, self, SortedKeys(t.Keys));
  }

  lemma CostTextIsWord(c: Cost)
    ensures IsWord(CostText(c))
    ensures c == Inf <==> CostText(c) == "inf"
    ensures c.Fin? ==> ParseInt(CostText(c)) == Some(c.value as int)
  {
    if c.Fin? {
      var text := NatToString(c.value);
      NatToStringValue(c.value);
      NumeralIsWord(text);
      ParseIntNumeral(text);
      assert IsDigit(text[0]);
    }
  }

  lemma RowTextWords(row: Row)
    ensures Words(RowText(row)) == [IntToString(row.destination), IntToString(row.nextHop), CostText(row.cost)]
  {
    CostTextIsWord(row.cost);
    IntToStringWord(row.destination);
    IntToStringWord(row.nextHop);
    WordsOfThree(IntToString(row.destination), IntToString(row.nextHop), CostText(row.cost));
  }

  /** A printed row splits into three fields that read back as destination, next hop and cost. */
  lemma RowTextReadsBack(row: Row)
    ensures var w := Words(RowText(row));
      && |w| == 3
      && ParseInt(w[0]) == Some(row.destination)
      && ParseInt(w[1]) == Some(row.nextHop)
      && (row.cost == Inf <==> w[2] == "inf")
      && (row.cost.Fin? ==> ParseInt(w[2]) == Some(row.cost.value as int))
  {
    RowTextWords(row);
    CostTextIsWord(row.cost);
    ParseIntOfString(row.destination);
    ParseIntOfString(row.nextHop);
  }

  // ================================================================ properties of the handlers

  /** Every handler that fails leaves the node state exactly as it was. */
  lemma HandlerFailureChangesNothing(s: NodeState, self: int, command: string, args: seq<string>, now: int)
    requires command in CommandNames
    ensures !Dispatch(s, self, command, args, now).0.ok ==> Dispatch(s, self, command, args, now).1 == s
  {
    if command == "update" {
      assert !Update(s, self, args, now).0.ok ==> Update(s, self, args, now).1 == s;
    } else if command == "disable" {
      assert !Disable(s, self, args, now).0.ok ==> Disable(s, self, args, now).1 == s;
    }
  }

  /** A command that fails leaves the node state exactly as it was. */
  lemma FailedCommandChangesNothing(s: NodeState, self: int, commandLine: string, now: int)
    ensures !Process(s, self, commandLine, now).0.ok ==> Process(s, self, commandLine, now).1 == s
  {
    var line := Strip(commandLine);
    if line != [] {
      var (command, args) := SplitCommand(line);
      if command in CommandNames {
        HandlerFailureChangesNothing(s, self, command, args, now);
      }
    }
  }

  /** A blank or whitespace-only line is rejected as empty, and nothing changes. */
  lemma BlankCommand(s: NodeState, self: int, commandLine: string, now: int)
    requires IsBlank(commandLine)
    ensures Process(s, self, commandLine, now) == (Fail("Empty command"), s)
  {
    StripEmptyIffBlank(commandLine);
  }

  /** A first word that is none of the six names, in any letter case, is rejected and nothing runs. */
  lemma UnknownCommand(s: NodeState, self: int, commandLine: string, now: int)
    requires Strip(commandLine) != []
    requires SplitCommand(Strip(commandLine)).0 !in CommandNames
    ensures Process(s, self, commandLine, now) == (Fail(Strip(commandLine) + " Error: Unknown command"), s)
  {
  }

  /** A known command's result line is the stripped line followed by `SUCCESS` or by the handler's message. */
  lemma KnownCommandReport(s: NodeState, self: int, commandLine: string, now: int)
    requires Strip(commandLine) != []
    requires SplitCommand(Strip(commandLine)).0 in CommandNames
    ensures var line := Strip(commandLine);
      var (command, args) := SplitCommand(line);
      var (h, s') := Dispatch(s, self, command, args, now);
      var (r, s'') := Process(s, self, commandLine, now);
      && r.ok == h.ok
      && r.message == line + (if h.ok then " SUCCESS" else " " + h.message)
      && r.output == h.output
      && s'' == s'
  {
  }

  /** `update` fails, changing nothing, unless both ids are integers, the cost is not negative, and it names a link of this server. */
  lemma UpdateRejects(s: NodeState, self: int, args: seq<string>, now: int)
    requires || |args| != 3
             || ParseInt(args[0]).None? || ParseInt(args[1]).None? || !ReadCost(args[2]).Given?
             || (self != ParseInt(args[0]).value && self != ParseInt(args[1]).value)
             || (if ParseInt(args[0]).value == self then ParseInt(args[1]).value else ParseInt(args[0]).value) !in s.neighbors
    ensures Update(s, self, args, now).1 == s && !Update(s, self, args, now).0.ok
  {
  }

  /**
   * `update` succeeds exactly when both ids are integers, the cost is given and
   * not negative, one id is this server's and the other names a neighbour; then
   * the link takes the new cost and time, and the table follows `ApplyLinkCost`.
   */
  lemma UpdateEffect(s: NodeState, self: int, args: seq<string>, now: int)
    ensures var (r, s') := Update(s, self, args, now);
      && (r.ok <==> && |args| == 3
                    && ParseInt(args[0]).Some? && ParseInt(args[1]).Some? && ReadCost(args[2]).Given?
                    && (self == ParseInt(args[0]).value || self == ParseInt(args[1]).value)
                    && (if ParseInt(args[0]).value == self then ParseInt(args[1]).value else ParseInt(args[0]).value) in s.neighbors)
      && (!r.ok ==> s' == s)
      && (r.ok ==> var n, c := (if ParseInt(args[0]).value == self then ParseInt(args[1]).value else ParseInt(args[0]).value), ReadCost(args[2]).cost;
            && s' == ApplyLinkCost(s, n, c, now)
            && s'.neighbors == s.neighbors[n := s.neighbors[n].(cost := c)]
            && s'.lastHeard == s.lastHeard[n := now]
            && s'.table == (if c == Inf then InvalidateThrough(s.table, n, now) else RefreshDirectRoute(s.table, n, c.value, now))
            && s'.packetsReceived == s.packetsReceived && s'.running == s.running)
  {
  }

  /** `update` with a finite cost: the link cost is set, and only a direct route to the neighbour follows it. */
  lemma UpdateFiniteCost(s: NodeState, n: int, v: nat, now: int)
    requires n in s.neighbors
    ensures var s' := ApplyLinkCost(s, n, Fin(v), now);
      && s'.neighbors == s.neighbors[n := s.neighbors[n].(cost := Fin(v))]
      && s'.lastHeard == s.lastHeard[n := now]
      && s'.table.Keys == s.table.Keys
      && (forall d :: d in s.table && d != n ==> s'.table[d] == s.table[d])
      && (n in s.table ==> s'.table[n] == if s.table[n].nextHop == n then EntryState(n, Fin(v), now) else s.table[n])
      && s'.packetsReceived == s.packetsReceived && s'.running == s.running
  {
  }

  /** `update` with cost `inf`: the link goes down and every route through the neighbour is invalidated. */
  lemma UpdateInfiniteCost(s: NodeState, n: int, now: int)
    requires n in s.neighbors
    ensures var s' := ApplyLinkCost(s, n, Inf, now);
      && s'.neighbors[n].cost == Inf
      && s'.lastHeard == s.lastHeard[n := now]
      && s'.table == InvalidateThrough(s.table, n, now)
  {
  }

  /** Either id may be this server's; the other one is the neighbour the update is about. */
  lemma UpdateRequestAccepts(self: int, a: string, b: string, c: string, x: int, y: int, cost: Cost)
    requires ParseInt(a) == Some(x) && ParseInt(b) == Some(y) && ReadCost(c) == Given(cost)
    requires self == x || self == y
    ensures UpdateRequest(self, [a, b, c]) == Ok((if x == self then y else x, cost))
  {
  }

  lemma ReadCostInf()
    ensures ReadCost("inf") == Given(Inf)
  {
    assert Lower("inf") == "inf";
  }

  /** `update <self> <n> <v>` and `update <n> <self> <v>` both name the link to `n`. */
  lemma UpdateRequestOfStrings(self: int, n: int, v: nat)
    requires n != self
    ensures UpdateRequest(self, [IntToString(self), IntToString(n), NatToString(v)]) == Ok((n, Fin(v)))
    ensures UpdateRequest(self, [IntToString(n), IntToString(self), NatToString(v)]) == Ok((n, Fin(v)))
    ensures UpdateRequest(self, [IntToString(n), IntToString(self), "inf"]) == Ok((n, Inf))
  {
    ParseIntOfString(n);
    ParseIntOfString(self);
    ParseCostOfString(v);
    ReadCostInf();
    UpdateRequestAccepts(self, IntToString(self), IntToString(n), NatToString(v), self, n, Fin(v));
    UpdateRequestAccepts(self, IntToString(n), IntToString(self), NatToString(v), n, self, Fin(v));
    UpdateRequestAccepts(self, IntToString(n), IntToString(self), "inf", n, self, Inf);
  }

  /** `disable n` succeeds exactly for a neighbour other than this server, and then invalidates the routes through it. */
  lemma DisableEffect(s: NodeState, self: int, args: seq<string>, now: int)
    ensures var (r, s') := Disable(s, self, args, now);
      && (r.ok <==> |args| == 1 && ParseInt(args[0]).Some? && ParseInt(args[0]).value != self
                    && ParseInt(args[0]).value in s.neighbors)
      && (!r.ok ==> s' == s)
      && (r.ok ==> var n := ParseInt(args[0]).value;
            && s'.neighbors == s.neighbors[n := s.neighbors[n].(cost := Inf)]
            && s'.table == InvalidateThrough(s.table, n, now)
            && s'.lastHeard == s.lastHeard && s'.packetsReceived == s.packetsReceived && s'.running == s.running)
  {
  }

  /** A finite cost on a link whose routes were invalidated brings no route back. */
  lemma RefreshAfterInvalidate(t: map<int, EntryState>, n: int, c: nat, now: int, later: int)
    requires n != NoHop
    ensures RefreshDirectRoute(InvalidateThrough(t, n, now), n, c, later) == InvalidateThrough(t, n, now)
  {
  }

  lemma DisableOfString(s: NodeState, self: int, n: int, now: int)
    requires n in s.neighbors && n != self
    ensures Disable(s, self, [IntToString(n)], now)
      == (Done, s.(neighbors := WithLinkCost(s.neighbors, n, Inf), table := InvalidateThrough(s.table, n, now)))
  {
    ParseIntOfString(n);
  }

  /** After `disable n`, `update` with a finite cost restores the link cost but not the routes. */
  lemma UpdateAfterDisable(s: NodeState, self: int, n: int, v: nat, now: int, later: int)
    requires n in s.neighbors && n != self && n != NoHop
    ensures var s1 := Disable(s, self, [IntToString(n)], now).1;
      var (r, s2) := Update(s1, self, [IntToString(self), IntToString(n), NatToString(v)], later);
      && r.ok
      && n in s2.neighbors && s2.neighbors[n].cost == Fin(v)
      && s2.table == s1.table == InvalidateThrough(s.table, n, now)
  {
    var s1 := Disable(s, self, [IntToString(n)], now).1;
    assert n in s1.neighbors && s1.table == InvalidateThrough(s.table, n, now) by {
      DisableOfString(s, self, n, now);
    }
    assert forall d :: d in s1.table ==> s1.table[d].nextHop != n by {
      InvalidateThroughEffect(s.table, n, now);
    }
    UpdateWithoutDirectRoute(s1, self, n, v, later);
  }

  lemma UpdateWithoutDirectRoute(s: NodeState, self: int, n: int, v: nat, now: int)
    requires n in s.neighbors && n != self
    requires forall d :: d in s.table ==> s.table[d].nextHop != n
    ensures var (r, s') := Update(s, self, [IntToString(self), IntToString(n), NatToString(v)], now);
      r.ok && n in s'.neighbors && s'.neighbors[n].cost == Fin(v) && s'.table == s.table
  {
    UpdateRequestOfStrings(self, n, v);
  }

  /** `crash` takes every link down, invalidates every route but the own one, and stops the server. */
  lemma CrashEffect(s: NodeState, self: int)
    ensures var (r, s') := Crash(s, self, []);
      && r.ok
      && s'.neighbors.Keys == s.neighbors.Keys
      && (forall k :: k in s'.neighbors ==> s'.neighbors[k] == s.neighbors[k].(cost := Inf))
      && s'.table.Keys == s.table.Keys
      && (self in s.table ==> s'.table[self] == s.table[self])
      && (forall d :: d in s.table && d != self ==>
            s'.table[d] == EntryState(NoHop, Inf, s.table[d].updated))
      && !s'.running
      && s'.lastHeard == s.lastHeard && s'.packetsReceived == s.packetsReceived
  {
  }

  /** `packets` reports the previous counter value and leaves the counter at zero. */
  lemma PacketsEffect(s: NodeState)
    ensures var (r, s') := Packets(s, []);
      && r.ok && r.output == PacketCount(s.packetsReceived)
      && s' == s.(packetsReceived := 0)
  {
  }

  lemma InvalidateKeepsInvariants(t: map<int, EntryState>, self: int, n: int, now: int)
    requires n != self
    requires SentinelMeansUnreachable(t) && SelfRoute(t, self)
    ensures var t' := InvalidateThrough(t, n, now);
      SentinelMeansUnreachable(t') && SelfRoute(t', self) && (self in t ==> t'[self] == t[self])
  {
  }

  lemma RefreshKeepsInvariants(t: map<int, EntryState>, self: int, n: int, c: nat, now: int)
    requires n != self && n != NoHop
    requires SentinelMeansUnreachable(t) && SelfRoute(t, self)
    ensures var t' := RefreshDirectRoute(t, n, c, now);
      SentinelMeansUnreachable(t') && SelfRoute(t', self) && (self in t ==> t'[self] == t[self])
  {
  }

  lemma CrashKeepsInvariants(t: map<int, EntryState>, self: int)
    requires SentinelMeansUnreachable(t) && SelfRoute(t, self)
    ensures var t' := CrashTable(t, self);
      SentinelMeansUnreachable(t') && SelfRoute(t', self) && (self in t ==> t'[self] == t[self])
  {
  }

  lemma UpdateKeepsInvariants(s: NodeState, self: int, args: seq<string>, now: int)
    requires self !in s.neighbors && NoHop !in s.neighbors
    requires SentinelMeansUnreachable(s.table) && SelfRoute(s.table, self)
    ensures var s' := Update(s, self, args, now).1;
      SentinelMeansUnreachable(s'.table) && SelfRoute(s'.table, self)
      && (self in s.table ==> self in s'.table && s'.table[self] == s.table[self])
  {
    var request := UpdateRequest(self, args);
    if request.Ok? && request.value.0 in s.neighbors {
      var (n, c) := request.value;
      if c == Inf {
        InvalidateKeepsInvariants(s.table, self, n, now);
      } else {
        RefreshKeepsInvariants(s.table, self, n, c.value, now);
      }
    }
  }

  lemma DisableKeepsInvariants(s: NodeState, self: int, args: seq<string>, now: int)
    requires SentinelMeansUnreachable(s.table) && SelfRoute(s.table, self)
    ensures var s' := Disable(s, self, args, now).1;
      SentinelMeansUnreachable(s'.table) && SelfRoute(s'.table, self)
      && (self in s.table ==> self in s'.table && s'.table[self] == s.table[self])
  {
    if |args| == 1 && ParseInt(args[0]).Some? && ParseInt(args[0]).value != self {
      InvalidateKeepsInvariants(s.table, self, ParseInt(args[0]).value, now);
    }
  }

  lemma HandlerKeepsInvariants(s: NodeState, self: int, command: string, args: seq<string>, now: int)
    requires command in CommandNames
    requires self !in s.neighbors && NoHop !in s.neighbors
    requires SentinelMeansUnreachable(s.table) && SelfRoute(s.table, self)
    ensures var s' := Dispatch(s, self, command, args, now).1;
      SentinelMeansUnreachable(s'.table) && SelfRoute(s'.table, self)
      && (self in s.table ==> self in s'.table && s'.table[self] == s.table[self])
  {
    if command == "update" {
      UpdateKeepsInvariants(s, self, args, now);
    } else if command == "disable" {
      DisableKeepsInvariants(s, self, args, now);
    } else if command == "crash" {
      CrashKeepsInvariants(s.table, self);
    } else {
      assert Dispatch(s, self, command, args, now).1.table == s.table;
    }
  }

  /**
   * Every command keeps both table invariants (the sentinel next hop only on
   * unreachable routes, the own route at cost 0 through itself) and never
   * touches the own route.
   */
  lemma CommandsKeepInvariants(s: NodeState, self: int, commandLine: string, now: int)
    requires self !in s.neighbors && NoHop !in s.neighbors
    requires SentinelMeansUnreachable(s.table) && SelfRoute(s.table, self)
    ensures var s' := Process(s, self, commandLine, now).1;
      SentinelMeansUnreachable(s'.table) && SelfRoute(s'.table, self)
      && (self in s.table ==> self in s'.table && s'.table[self] == s.table[self])
  {
    var line := Strip(commandLine);
    if line != [] {
      var (command, args) := SplitCommand(line);
      if command in CommandNames {
        HandlerKeepsInvariants(s, self, command, args, now);
      }
    }
  }

  // ================================================================ the command handler

  class CommandHandler {
    const server: DVServer

    constructor (server: DVServer)
      ensures this.server == server
    {
      this.server := server;
    }

    /** Processes one operator command line against the server's state. */
    method ProcessCommand(commandLine: string, now: int) returns (r: Reply)
      requires server.Valid()
      modifies server, server.routingTable.Values
      ensures server.Valid() && server.routingTable == old(server.routingTable)
      ensures (r, server.State()) == Process(old(server.State()), server.serverId, commandLine, now)
    {
      var line := Strip(commandLine);
      if line == [] {
        return Fail("Empty command");
      }
      var (command, args) := SplitCommand(line);
      if command !in CommandNames {
        return Fail(line + " Error: Unknown command");
      }
      var handled := RunHandler(command, args, now);
      r := Reply(handled.ok, if handled.ok then line + " SUCCESS" else line + " " + handled.message, handled.output);
    }

    /** Looks the command up in the handler table and runs it. */
    method RunHandler(command: string, args: seq<string>, now: int) returns (r: Reply)
      requires command in CommandNames
      requires server.Valid()
      modifies server, server.routingTable.Values
      ensures server.Valid() && server.routingTable == old(server.routingTable)
      ensures (r, server.State()) == Dispatch(old(server.State()), server.serverId, command, args, now)
    {
      if command == "update" {
        r := HandleUpdate(args, now);
      } else if command == "step" {
        r := HandleStep(args);
      } else if command == "packets" {
        r := HandlePackets(args);
      } else if command == "display" {
        r := HandleDisplay(args);
      } else if command == "disable" {
        r := HandleDisable(args, now);
      } else {
        r := HandleCrash(args);
      }
    }

    method HandleUpdate(args: seq<string>, now: int) returns (r: Reply)
      requires server.Valid()
      modifies server, server.routingTable.Values
      ensures server.Valid() && server.routingTable == old(server.routingTable)
      ensures (r, server.State()) == Update(old(server.State()), server.serverId, args, now)
    {
      var request := UpdateRequest(server.serverId, args);
      if request.Err? {
        return Fail(request.error);
      }
      var (n, c) := request.value;
      if n !in server.neighbors {
        return Fail(NotDirectNeighbor);
      }
      ghost var before := server.State();
      assert Update(before, server.serverId, args, now) == (Done, ApplyLinkCost(before, n, c, now));
      server.neighbors := WithLinkCost(server.neighbors, n, c);
      server.neighborLastUpdate := server.neighborLastUpdate[n := now];
      assert server.Table() == before.table;
      if c == Inf {
        InvalidateRoutesThroughNeighbor(n, now);
      } else {
        RefreshDirectEntry(n, c.value, now);
      }
      r := Done;
    }

    method HandleStep(args: seq<string>) returns (r: Reply)
      ensures r == Step(server.State(), args).0
    {
      if args != [] {
        return Fail(StepUsage);
      }
      r := Done;
    }

    method HandlePackets(args: seq<string>) returns (r: Reply)
      modifies server
      ensures server.routingTable == old(server.routingTable)
      ensures (r, server.State()) == Packets(old(server.State()), args)
    {
      if args != [] {
        return Fail(PacketsUsage);
      }
      var count := server.packetsReceived;
      server.packetsReceived := 0;
      assert server.Table() == old(server.Table());
      r := Reply(true, "", PacketCount(count));
    }

    method HandleDisplay(args: seq<string>) returns (r: Reply)
      ensures r == Display(server.State(), server.serverId, args).0
    {
      if args != [] {
        return Fail(DisplayUsage);
      }
      var rows := DisplayRoutingTable();
      r := Reply(true, "", Routes(rows));
    }

    method HandleDisable(args: seq<string>, now: int) returns (r: Reply)
      requires server.Valid()
      modifies server, server.routingTable.Values
      ensures server.Valid() && server.routingTable == old(server.routingTable)
      ensures (r, server.State()) == Disable(old(server.State()), server.serverId, args, now)
    {
      if |args| != 1 {
        return Fail(DisableUsage);
      }
      var id := ParseInt(args[0]);
      if id.None? {
        return Fail(BadId);
      }
      var n := id.value;
      if n == server.serverId {
        return Fail(DisableSelf);
      }
      if n !in server.neighbors {
        return Fail(NotNeighbor);
      }
      server.neighbors := WithLinkCost(server.neighbors, n, Inf);
      assert server.Table() == old(server.Table());
      InvalidateRoutesThroughNeighbor(n, now);
      r := Done;
    }

    method HandleCrash(args: seq<string>) returns (r: Reply)
      requires server.Valid()
      modifies server, server.routingTable.Values
      ensures server.Valid() && server.routingTable == old(server.routingTable)
      ensures (r, server.State()) == Crash(old(server.State()), server.serverId, args)
    {
      if args != [] {
        return Fail(CrashUsage);
      }
      TakeAllLinksDown();
      CrashRoutes();
      server.running := false;
      assert server.Table() == CrashTable(old(server.Table()), server.serverId);
      r := Done;
    }

    /** The first loop of `handle_crash`: every link cost becomes infinite. */
    method TakeAllLinksDown()
      requires server.Valid()
      modifies server
      ensures server.Valid() && server.routingTable == old(server.routingTable)
      ensures server.neighbors == AllLinksDown(old(server.neighbors))
      ensures server.neighborLastUpdate == old(server.neighborLastUpdate)
      ensures server.packetsReceived == old(server.packetsReceived) && server.running == old(server.running)
    {
      var pending := server.neighbors.Keys;
      while pending != {}
        invariant server.Valid() && server.routingTable == old(server.routingTable)
        invariant pending <= server.neighbors.Keys == old(server.neighbors.Keys)
        invariant forall k :: k in server.neighbors ==>
          server.neighbors[k] == if k in pending then old(server.neighbors[k]) else old(server.neighbors[k]).(cost := Inf)
        invariant server.neighborLastUpdate == old(server.neighborLastUpdate)
        invariant server.packetsReceived == old(server.packetsReceived) && server.running == old(server.running)
        decreases pending
      {
        SomeMember(pending);
        var k :| k in pending;
        server.neighbors := WithLinkCost(server.neighbors, k, Inf);
        pending := pending - {k};
      }
      assert forall k :: k in server.neighbors ==> server.neighbors[k] == AllLinksDown(old(server.neighbors))[k];
    }

    /** The second loop of `handle_crash`: every route but the own one becomes unreachable. */
    method CrashRoutes()
      requires server.Valid()
      modifies server.routingTable.Values
      ensures server.Table() == CrashTable(old(server.Table()), server.serverId)
    {
      var pending := server.routingTable.Keys;
      while pending != {}
        invariant server.routingTable == old(server.routingTable)
        invariant pending <= server.routingTable.Keys
        invariant forall d :: d in server.routingTable ==>
          server.routingTable[d].View() ==
            if d in pending then old(server.routingTable[d].View()) else CrashTable(old(server.Table()), server.serverId)[d]
        decreases pending
      {
        SomeMember(pending);
        var d :| d in pending;
        var entry := server.routingTable[d];
        if d != server.serverId {
          entry.cost := Inf;
          entry.nextHopId := NoHop;
        }
        pending := pending - {d};
      }
      assert forall d :: d in server.routingTable ==> server.Table()[d] == CrashTable(old(server.Table()), server.serverId)[d];
    }

    /** The finite-cost branch of `handle_update`: a direct route to `n` takes the new cost. */
    method RefreshDirectEntry(n: int, c: nat, now: int)
      requires server.Valid()
      modifies server.routingTable.Values
      ensures server.Table() == RefreshDirectRoute(old(server.Table()), n, c, now)
    {
      if n in server.routingTable {
        var entry := server.routingTable[n];
        if entry.nextHopId == n {
          entry.cost := Fin(c);
          entry.lastUpdateTime := now;
          forall d | d in server.routingTable && d != n
            ensures server.Table()[d] == old(server.Table())[d]
          {
            assert server.routingTable[d] != entry;
          }
          assert server.Table() == old(server.Table())[n := EntryState(n, Fin(c), now)];
        }
      }
    }

    /** `_invalidate_routes_through_neighbor`. */
    method InvalidateRoutesThroughNeighbor(n: int, now: int)
      requires server.Valid()
      modifies server.routingTable.Values
      ensures server.Table() == InvalidateThrough(old(server.Table()), n, now)
    {
      var pending := server.routingTable.Keys;
      while pending != {}
        invariant server.routingTable == old(server.routingTable)
        invariant pending <= server.routingTable.Keys
        invariant forall d :: d in server.routingTable ==>
          server.routingTable[d].View() ==
            if d in pending then old(server.routingTable[d].View()) else InvalidateThrough(old(server.Table()), n, now)[d]
        decreases pending
      {
        SomeMember(pending);
        var d :| d in pending;
        var entry := server.routingTable[d];
        if entry.nextHopId == n {
          entry.cost := Inf;
          entry.nextHopId := NoHop;
          entry.lastUpdateTime := now;
        }
        pending := pending - {d};
      }
      assert forall d :: d in server.routingTable ==> server.Table()[d] == InvalidateThrough(old(server.Table()), n, now)[d];
    }

    /** `_display_routing_table`: the rows, in ascending destination order. */
    method DisplayRoutingTable() returns (rows: seq<Row>)
      ensures rows == RoutingTableRows(server.Table(), server.serverId)
    {
      var t := server.Table();
      var keys := SortedKeys(t.Keys);
      SortedKeysMembers(t.Keys);
      rows := CollectRows(t, server.serverId, keys);
    }
  }
}
