# Distance-vector routing server: commands, topology files

This project models the core of a small distance-vector routing server in
Dafny. Each server reads a topology file naming every server (id, IPv4
address, UDP port) and its own direct links. An operator then drives the
server with six commands:
- `update` changes a link cost;
- `step` triggers a broadcast;
- `packets` reports and resets the received-packet counter;
- `display` shows the routing table;
- `disable` takes one link down;
- `crash` takes every link down and stops the server.

A generator script writes one topology file per server from a configuration.

The model has these parts:

- `Text` (`text.dfy`): the Python built-ins the core relies on, over ASCII
  text. These are `str.strip`, `str.split()`, `str.lower`, `int()` on a
  string, `str()` of an integer, and the part of `float()` that matters here.
- `Ordered` (`ordered.dfy`): `sorted()` of a set of integer keys.
- `Router` (`router.dfy`): link and path costs (`Fin(n)` or `Inf`) and the
  mutable `RoutingEntry` class.
- `Server` (`server.dfy`): the state fields of `DVServer` as a class, plus the
  same state as a value (`NodeState`).
- `Commands` (`commands.dfy`): each command as a function from the node
  state before it to its reply and the state after it. The lemmas say what
  these functions mean: failures change nothing, the routing-table invariants
  are kept, and displayed rows read back. The `CommandHandler` class changes a
  `DVServer` in place, and each of its methods is proved to agree with its
  function.
- `TopologyParsing` (`parse_topology.dfy`): `parse_cost`, `validate_ip`,
  `validate_port` and `TopologyParser.parse`. `ParseTopology` specifies the
  parser, and the `TopologyParser` class is proved against it loop by loop.
- `TopologyFacts` (`parse_facts.dfy`): what `parse` guarantees. It covers
  when each error is raised, which fields each section may change, that an
  accepted file is consistent, and that blank and trailing lines are ignored.
- `TopologyGeneration` (`generate_topologies.dfy`): the file layout
  (`TopologyFile`), the method that writes it line by line,
  `generate_topology_files` over all servers, and `get_local_config`.
- `RoundTrip` (`roundtrip.dfy`): parsing a generated file gives back the
  configuration it was generated from.

Clock readings are parameters (`now`). The file lines are parameters of
`Parse`, and the generated files are returned as a map from file name to
lines.

## Model

| member | source | states |
|---|---|---|
| Text.DigitValue | parse_topology.py:169-170 | the value of one ASCII digit is at most 9 |
| Text.DigitChar | generate_topologies.py:121 | the digit written for a value 0..9 is a digit character that reads back as that value |
| Text.NatToStringValue | generate_topologies.py:109-121 | `str(n)` of a natural number is a run of digits, one character long exactly for n <= 9, whose value is n |
| Text.IntToStringWord | generate_topologies.py:117 | `str(i)` of any integer is non-empty and holds no whitespace |
| Text.IntToString | generate_topologies.py:109-121 | defines `str(i)`: a minus sign for negatives, then the decimal digits; `NatToStringValue` and `ParseIntOfString` state that it reads back |
| Text.NumeralIsWord | parse_topology.py:128 | a run of digits holds no whitespace |
| Text.TrimLeft | commands.py:28 | strips leading whitespace: never longer, and the result is empty or starts with a non-space; what is dropped is stated by `TrimLeftSuffix` |
| Text.TrimLeftSuffix | commands.py:28 | left-stripping keeps a suffix of the text and drops only whitespace before it |
| Text.TrimRight | commands.py:28 | strips trailing whitespace: never longer, and the result is empty or ends with a non-space; what is dropped is stated by `TrimRightPrefix` |
| Text.TrimRightPrefix | commands.py:28 | right-stripping keeps a prefix of the text and drops only whitespace after it |
| Text.Strip | commands.py:28 | `strip()` leaves text that neither starts nor ends with whitespace; what it removes is stated by `StripSurroundingBlank` |
| Text.StripSurroundingBlank | commands.py:28 | `strip()` keeps one contiguous stretch of the text, starting after the leading whitespace, and everything before and after that stretch is whitespace |
| Text.TrimRightEmptyIffBlank | commands.py:28-32 | right-stripping leaves nothing exactly when the text is all whitespace |
| Text.TrimLeftEmptyIffBlank | commands.py:28-32 | left-stripping leaves nothing exactly when the text is all whitespace |
| Text.StripEmptyIffBlank | commands.py:28-32 | `strip()` gives the empty string exactly for whitespace-only text |
| Text.StripUnchanged | parse_topology.py:109 | text with no whitespace at either end is its own strip |
| Text.StripNumeralNewline | parse_topology.py:109 | a written line `digits\n` strips back to the digits |
| Text.NonSpaceRun | commands.py:35 | the first token ends at the first whitespace character or at the end |
| Text.Words | commands.py:35 | `split()` yields only non-empty, whitespace-free tokens; `WordsSplitAtSpace`, `WordsOfBlank` and `WordsOfWord` state which tokens |
| Text.WordsNonEmpty | commands.py:35-38 | a stripped non-empty line has a first token, its leading non-space run |
| Text.WordsOfWord | commands.py:35 | a single whitespace-free token splits to itself |
| Text.WordsCons | parse_topology.py:128 | a token, a space and more text split into that token followed by the split of the rest |
| Text.WordsOfThree | parse_topology.py:128 | `f"{a} {b} {c}"` of three tokens splits back into exactly those three |
| Text.WordsOfBlank | commands.py:35 | whitespace-only text splits into no tokens |
| Text.NonSpaceRunAppend | commands.py:35 | the first token ends at the first whitespace, whatever text follows that whitespace |
| Text.WordsSplitAtSpace | commands.py:35 | a whitespace character separates tokens: `(a + c + b).split()` is `a.split()` followed by `b.split()`; with `WordsOfBlank` and `WordsOfWord` this makes the tokens exactly the maximal non-whitespace runs, in order |
| Text.Lower | commands.py:38 | `lower()` keeps the length and lower-cases each character |
| Text.ParseIntOfWord | parse_topology.py:132-134 | `int()` of a whitespace-free token is its signed decimal value |
| Text.ParseInt | parse_topology.py:115-118 | defines `int()` of a string: strip, then an optional sign and ASCII digits; `ParseIntOfString`, `ParseIntOfWord` and `ParseIntChar` state what it accepts |
| Text.StripNumeral | parse_topology.py:115 | a run of digits is unchanged by `strip()` |
| Text.StripNegativeNumeral | parse_topology.py:115 | a minus sign and digits are unchanged by `strip()` |
| Text.SignedDecimalNumeral | parse_topology.py:132 | a run of digits reads as its value |
| Text.SignedDecimalNegative | parse_topology.py:132 | a minus sign and digits read as the negated value |
| Text.ParseIntNumeral | parse_topology.py:115-118 | `int()` of a run of digits is its value |
| Text.ParseIntNegativeNumeral | commands.py:70-71 | `int()` of a minus sign and digits is the negated value |
| Text.ParseIntOfString | parse_topology.py:115-118 | `int(str(i)) == i` for every integer |
| Text.StripChar | parse_topology.py:169-170 | one character strips to nothing exactly when it is whitespace |
| Text.SignedDecimalChar | parse_topology.py:169-170 | one character reads as an integer exactly when it is a digit |
| Text.ParseIntChar | parse_topology.py:169-170 | `int(c)` of one character succeeds exactly for a digit, giving its value |
| Text.UnsignedParsed | parse_topology.py:159-166 | a stripped entry that `int()` accepts and that starts with a digit is all digits |
| Text.ParseIntNumeralNewline | parse_topology.py:50-53 | `int()` ignores a final newline after digits |
| Text.ParseFloatNumeral | parse_topology.py:27 | `float()` of a run of digits is that non-negative number |
| Text.FloatLiteralNumeral | parse_topology.py:27 | the literal form of a run of digits is that non-negative number |
| Text.ParseFloat | parse_topology.py:27 | defines `float()` for a stripped optional sign followed by digits or an infinity word, as an exact value; `ParseFloatNumeral` and `ParseCostInfinity` state what it reads |
| Ordered.Least | commands.py:256 | the least element of a non-empty set is in it and below every other element |
| Ordered.SortedKeysMembers | commands.py:256 | `sorted(keys)` has one entry per key and holds exactly the keys |
| Ordered.SortedKeysSpec | generate_topologies.py:115 | `sorted(keys)` is a strictly ascending listing of exactly the keys |
| Ordered.SortedKeysAscending | generate_topologies.py:115 | `sorted(keys)` lists the keys in strictly ascending order |
| Ordered.SortedKeysDistinct | generate_topologies.py:115 | earlier entries of `sorted(keys)` are smaller |
| Ordered.SortedKeysWithin | generate_topologies.py:115 | every entry of `sorted(keys)` is a key |
| Ordered.SortedKeysDistinctAll | generate_topologies.py:104-105 | `sorted(keys)` lists no key twice |
| Ordered.SortedKeys | generate_topologies.py:115 | defines `sorted()` of a set of keys by taking the least key first; `SortedKeysSpec` states it is the ascending listing of exactly the keys |
| Router.RoutingEntry.constructor | router.py:5-8 | a new entry holds the given destination, next hop and cost, stamped with the given time |
| Server.DVServer.constructor | dv.py:15-42 | the start-up state: given identity, links and table, empty last-heard map, no packets counted, running |
| Commands.Process | commands.py:22-58 | defines `process_command`: strip, reject an empty line, split, match the lower-cased first word, run the handler and report; `BlankCommand`, `UnknownCommand` and `KnownCommandReport` state its outcomes |
| Commands.SplitCommand | commands.py:35-39 | defines the split of a stripped line into its lower-cased first word and the remaining tokens |
| Commands.Dispatch | commands.py:13-20 | defines the handler table: each of the six names selects its handler |
| Commands.UpdateRequest | commands.py:66-87 | defines the checks of `update` before the links are consulted: three arguments, two integers and a cost, a non-negative cost, this server at one end; `UpdateRejects` and `UpdateRequestAccepts` state them |
| Commands.ApplyLinkCost | commands.py:95-107 | defines the link-cost change of `update`: the cost and its time, then invalidation for infinity or the direct-route refresh otherwise |
| Commands.Update | commands.py:60-112 | defines `handle_update` on the node state; `UpdateEffect` states its effect in one lemma, `UpdateRejects`, `UpdateFiniteCost` and `UpdateInfiniteCost` spell out the cases |
| Commands.Step | commands.py:115-127 | defines `handle_step`: arguments are refused, otherwise success with the state untouched |
| Commands.Packets | commands.py:130-148 | defines `handle_packets`; `PacketsEffect` states its effect |
| Commands.Display | commands.py:151-167 | defines `handle_display`; `DisplayedRows` states what it shows |
| Commands.Disable | commands.py:171-205 | defines `handle_disable`; `DisableEffect` states its effect |
| Commands.Crash | commands.py:207-234 | defines `handle_crash`; `CrashEffect` states its effect |
| Commands.InvalidateThrough | commands.py:236-247 | defines `_invalidate_routes_through_neighbor` on the table; `InvalidateThroughEffect` states its effect |
| Commands.RefreshDirectRoute | commands.py:104-108 | defines the direct-route refresh after a finite cost; `UpdateFiniteCost` states its effect |
| Commands.AllLinksDown | commands.py:222-223 | defines the first loop of `handle_crash`: every link cost becomes infinity |
| Commands.CrashTable | commands.py:226-229 | defines the second loop of `handle_crash`: every route but the own one becomes unreachable |
| Commands.RoutingTableRows | commands.py:249-269 | defines `_display_routing_table`; `DisplayedRows` states which rows it gives and in what order |
| Commands.ReadCost | commands.py:75-80 | defines the cost argument of `update`: `inf` in any case, otherwise `float()` and the negativity check; `ReadCostOfNumeral` and `ReadCostInf` state what it reads |
| Commands.ParseCost | commands.py:292-311 | defines the module-level `parse_cost`; `ParseCostOfString` states what it reads |
| Commands.InvalidateThroughEffect | commands.py:236-247 | exactly the routes whose next hop is the neighbour become unreachable with the -1 sentinel, the others stay, and no route through the neighbour is left |
| Commands.InvalidateThroughIdempotent | commands.py:236-247 | invalidating twice through the same neighbour changes nothing the second time |
| Commands.ValidateServerId | commands.py:272-289 | gives an id exactly when `int()` reads the text and the value lies in `lo..hi`, and then gives that value |
| Commands.ValidateServerIdOfString | commands.py:272-289 | `validate_server_id(str(k))` is k exactly when k is in range, otherwise None |
| Commands.ValidateDefaultServerId | commands.py:272 | defines the default range `range(1, 5)` of `validate_server_id`; `ValidateServerId` states what it accepts |
| Commands.ReadCostOfNumeral | commands.py:292-311 | a run of digits is read as that finite cost |
| Commands.ParseCostOfString | commands.py:292-311 | `parse_cost(str(n))` is n and `parse_cost("inf")` is infinity |
| Commands.ShownAmong | commands.py:258-269 | the destinations kept are exactly those listed that are shown |
| Commands.ShownAmongAscending | commands.py:256-269 | filtering keeps the ascending order of the keys |
| Commands.Rows | commands.py:258-269 | one row per destination, in that order, with its entry's next hop and cost |
| Commands.RowsStep | commands.py:258-269 | one more key adds that key's row at the end exactly when the key is shown |
| Commands.CollectRows | commands.py:258-269 | the loop produces the rows of exactly the shown destinations, in key order |
| Commands.DisplayedRows | commands.py:249-269 | `display` lists, in ascending destination order, every route except invalidated routes to other servers, each with its next hop and cost |
| Commands.CostTextIsWord | commands.py:262-265 | the cost text is one token, `inf` exactly for infinity, and otherwise the cost's digits |
| Commands.RowTextWords | commands.py:268-269 | a printed row splits into destination, next hop and cost text |
| Commands.RowTextReadsBack | commands.py:262-269 | a printed row has three fields that read back as destination, next hop and cost |
| Commands.HandlerFailureChangesNothing | commands.py:60-234 | every handler that reports failure leaves the node state as it was |
| Commands.FailedCommandChangesNothing | commands.py:22-56 | a command line that fails leaves the node state as it was |
| Commands.BlankCommand | commands.py:28-32 | a whitespace-only line gives `Empty command` and changes nothing |
| Commands.UnknownCommand | commands.py:35-43 | a first word that is not one of the six names in any letter case is rejected with the line and `Error: Unknown command`, and nothing runs |
| Commands.KnownCommandReport | commands.py:45-53 | a known command's result is the handler's success, with the stripped line followed by `SUCCESS` or by the handler's message, and the handler's new state |
| Commands.UpdateEffect | commands.py:60-112 | `update` succeeds exactly for three arguments with two integer ids and a given, non-negative cost, one id this server's and the other a neighbour; it then sets that link's cost and last-heard time, invalidates routes through the neighbour for `inf` or refreshes only the direct route otherwise, and on failure changes nothing |
| Commands.UpdateRejects | commands.py:66-92 | `update` fails and changes nothing on a wrong argument count, a bad id or cost, a negative cost, a link not touching this server, or a non-neighbour |
| Commands.UpdateFiniteCost | commands.py:94-107 | a finite cost sets the link cost and its time, and changes only a direct route to that neighbour |
| Commands.UpdateInfiniteCost | commands.py:94-101 | cost `inf` sets the link down, stamps its time and invalidates every route through the neighbour |
| Commands.UpdateRequestAccepts | commands.py:70-87 | either id may be this server's, and the other is the neighbour the update is about |
| Commands.ReadCostInf | commands.py:75-76 | the word `inf` is read as infinity |
| Commands.UpdateRequestOfStrings | commands.py:66-87 | `update self n v`, `update n self v` and `update n self inf` all name the link to n with that cost |
| Commands.DisableEffect | commands.py:171-205 | `disable` succeeds exactly for one integer argument naming a neighbour other than this server; it then sets that link to infinity and invalidates routes through it, and otherwise changes nothing |
| Commands.RefreshAfterInvalidate | commands.py:99-107 | a finite cost on a link whose routes were invalidated brings no route back |
| Commands.DisableOfString | commands.py:186-202 | `disable n` for a neighbour n takes that link down and invalidates routes through it |
| Commands.UpdateAfterDisable | commands.py:60-205 | after `disable n`, a finite `update` restores the link cost but not the invalidated routes |
| Commands.UpdateWithoutDirectRoute | commands.py:94-107 | with no route through the neighbour, a finite `update` changes the link cost and not the table |
| Commands.CrashEffect | commands.py:207-234 | `crash` sets every link cost to infinity, makes every route but the own one unreachable with its timestamp kept, stops the server, and touches nothing else |
| Commands.PacketsEffect | commands.py:130-149 | `packets` reports the previous counter value and resets it to zero, changing nothing else |
| Commands.InvalidateKeepsInvariants | commands.py:236-247 | invalidation keeps the sentinel on unreachable routes only and keeps the own route |
| Commands.RefreshKeepsInvariants | commands.py:103-107 | refreshing a direct route keeps both table invariants and the own route |
| Commands.CrashKeepsInvariants | commands.py:226-229 | the crash table keeps both invariants and the own route |
| Commands.UpdateKeepsInvariants | commands.py:60-112 | `update` keeps both table invariants and the own route |
| Commands.DisableKeepsInvariants | commands.py:171-205 | `disable` keeps both table invariants and the own route |
| Commands.HandlerKeepsInvariants | commands.py:60-234 | every handler keeps both table invariants and the own route |
| Commands.CommandsKeepInvariants | commands.py:22-56 | every command line keeps the sentinel -1 on unreachable routes only and the own route at cost 0 through itself |
| Commands.CommandHandler.constructor | commands.py:9-20 | the handler is bound to the given server |
| Commands.CommandHandler.ProcessCommand | commands.py:22-56 | the reply and the server's new state are those of processing the line against the old state |
| Commands.CommandHandler.RunHandler | commands.py:45-47 | the handler the name selects runs, with that handler's reply and new state |
| Commands.CommandHandler.HandleUpdate | commands.py:60-112 | in-place `update` ends in exactly the reply and state `Update` gives |
| Commands.CommandHandler.HandleStep | commands.py:115-126 | `step` rejects arguments and otherwise succeeds |
| Commands.CommandHandler.HandlePackets | commands.py:130-149 | in-place `packets` ends in the reply and state `Packets` gives |
| Commands.CommandHandler.HandleDisplay | commands.py:151-166 | `display` rejects arguments and otherwise shows the sorted, filtered rows |
| Commands.CommandHandler.HandleDisable | commands.py:171-205 | in-place `disable` ends in exactly the reply and state `Disable` gives |
| Commands.CommandHandler.HandleCrash | commands.py:207-234 | in-place `crash` ends in exactly the reply and state `Crash` gives |
| Commands.CommandHandler.TakeAllLinksDown | commands.py:222-223 | every link cost becomes infinity, nothing else changes |
| Commands.CommandHandler.CrashRoutes | commands.py:226-229 | every entry but the own one becomes unreachable with the sentinel |
| Commands.CommandHandler.RefreshDirectEntry | commands.py:103-107 | a direct route to the neighbour takes the new cost and time, and no other entry changes |
| Commands.CommandHandler.InvalidateRoutesThroughNeighbor | commands.py:236-247 | the entries through the neighbour are invalidated in place, and nothing else changes |
| Commands.CommandHandler.DisplayRoutingTable | commands.py:249-269 | the displayed rows are the sorted, filtered rows of the current table |
| TopologyParsing.ParseCost | parse_topology.py:10-32 | defines `parse_cost`: strip and lower-case, then an infinity word or a non-negative `float()`; `ParseCostNumeral`, `ParseCostNegative` and `ParseCostInfinity` state what it reads |
| TopologyParsing.CostWord | parse_topology.py:24-32 | defines `parse_cost` after its strip and lower-case step |
| TopologyParsing.ValidateIp | parse_topology.py:34-58 | defines `validate_ip`: the pattern, then the range check of every part; `ValidateIpIsDottedQuad` states what it accepts |
| TopologyParsing.ValidatePort | parse_topology.py:60-74 | defines `validate_port`: an integer in 1..65535 |
| TopologyParsing.ServerEntry | parse_topology.py:128-141 | defines the reading of one server line; `ServerEntryShape` states what it accepts |
| TopologyParsing.NeighborFields | parse_topology.py:153-172 | defines the reading of one neighbour line; `NeighborFieldsShape` states what it accepts |
| TopologyParsing.LinkStep | parse_topology.py:174-191 | defines the identity fix and the checks of one neighbour line; `LinkStepChecks` states them |
| TopologyParsing.ParseEntries | parse_topology.py:121-191 | defines the server and neighbour sections after the counts; `EntriesFailures` and `EntriesConsistent` state their outcomes |
| TopologyParsing.ParseTopology | parse_topology.py:97-205 | defines `parse` on the file's lines and the parser's prior fields; `TooShortExactly`, `NotEnoughExactly` and `AcceptedConsistent` state its outcomes |
| TopologyParsing.LowerNumeral | parse_topology.py:23 | digits are unchanged by `lower()` |
| TopologyParsing.CostWordNumeral | parse_topology.py:24-30 | a run of digits is that finite cost |
| TopologyParsing.ParseCostNumeral | parse_topology.py:10-32 | `parse_cost` of a run of digits is that finite cost |
| TopologyParsing.LowerNegative | parse_topology.py:23 | a minus sign and digits are unchanged by `lower()` |
| TopologyParsing.FloatLiteralNegative | parse_topology.py:27 | `-digits` is the negative number |
| TopologyParsing.ParseFloatNegative | parse_topology.py:27 | `float("-digits")` is that negative number |
| TopologyParsing.CostWordNegative | parse_topology.py:27-32 | a negative number is rejected, except minus zero, which is zero |
| TopologyParsing.ParseCostNegative | parse_topology.py:10-32 | `parse_cost` rejects a negative number and accepts `-0` as zero |
| TopologyParsing.InfinityWord | parse_topology.py:23-25 | `inf`, `infinity` and `∞` in any letter case are infinity |
| TopologyParsing.ParseCostInfinityWord | parse_topology.py:23-25 | `Infinity` is infinity |
| TopologyParsing.ParseCostInfWord | parse_topology.py:23-25 | `inf` is infinity |
| TopologyParsing.ParseCostInfUpper | parse_topology.py:23-25 | `INF` is infinity |
| TopologyParsing.ParseCostInfinitySign | parse_topology.py:23-25 | `∞` is infinity |
| TopologyParsing.ParseCostInfinity | parse_topology.py:10-25 | all spellings of infinity that the docstring names give infinity |
| TopologyParsing.DigitRun | parse_topology.py:45 | the leading digit run is no longer than the text |
| TopologyParsing.DigitRunEnds | parse_topology.py:45 | the leading run is all digits and is followed by a non-digit or the end |
| TopologyParsing.RunBefore | parse_topology.py:50 | the index of the first separator is within the text |
| TopologyParsing.RunBeforeEnds | parse_topology.py:50 | no separator comes before that index, and one sits at it unless it is the end |
| TopologyParsing.SplitOn | parse_topology.py:50 | `split('.')` yields at least one part |
| TopologyParsing.OctetsInRangeEach | parse_topology.py:51-58 | the octet loop accepts exactly when every part is an integer in 0..255 |
| TopologyParsing.FirstGroup | parse_topology.py:45-50 | the pattern's first group ends where the first dot-separated part does |
| TopologyParsing.AllShapedCons | parse_topology.py:45 | a list of parts is well shaped exactly when its head and tail are |
| TopologyParsing.OctetGroupsNoDot | parse_topology.py:45 | text without a dot matches only as the last group |
| TopologyParsing.OctetGroupsDot | parse_topology.py:45 | text with a dot matches as a group, a dot and the remaining groups |
| TopologyParsing.GroupsArePartsDot | parse_topology.py:45-50 | the groups-are-parts claim passes from the text after a dot to the whole text |
| TopologyParsing.NewlinePartsInRange | parse_topology.py:50-57 | when the last of four parts carries a newline, the parts pass the range check exactly when every octet is at most 255 |
| TopologyParsing.NewlineOctetsInRange | parse_topology.py:44-57 | a dotted quad with a final newline passes the range check exactly when every octet is at most 255 |
| TopologyParsing.OctetGroupsSplit | parse_topology.py:45-50 | the pattern matches exactly when `split('.')` gives k+1 parts of 1 to 3 digits each |
| TopologyParsing.RunBeforeAppend | parse_topology.py:50 | appending a non-separator keeps the first separator's index |
| TopologyParsing.SplitOnAppend | parse_topology.py:50 | appending a non-separator extends the last part |
| TopologyParsing.OctetOfNumeral | parse_topology.py:52-55 | a part of digits, with or without a final newline, is in range exactly when its value is at most 255 |
| TopologyParsing.ValidateIpPlain | parse_topology.py:34-58 | without a final newline, `validate_ip` accepts exactly the dotted quads |
| TopologyParsing.ValidateIpNewline | parse_topology.py:44-58 | a dotted quad followed by one newline is still accepted, since `$` and `int()` both allow it |
| TopologyParsing.ValidateIpIsDottedQuad | parse_topology.py:34-58 | `validate_ip` accepts exactly the dotted quads, optionally followed by one newline |
| TopologyParsing.NonBlank | parse_topology.py:109 | the kept lines are stripped, non-empty and no more numerous than the raw lines |
| TopologyParsing.TopologyParser.constructor | parse_topology.py:81-95 | a new parser has zero counts, no servers or neighbours and no identity |
| TopologyParsing.TopologyParser.Parse | parse_topology.py:97-206 | the fields after `parse`, and its result or `ValueError`, are exactly those of `ParseTopology` from the old fields |
| TopologyParsing.TopologyParser.ReadEntries | parse_topology.py:115-201 | after the counts, the fields and result are those of `ParseEntries` |
| TopologyParsing.TopologyParser.ReadNeighborSection | parse_topology.py:146-201 | the neighbour section ends in the fields and result `ParseNeighbors` gives |
| TopologyParsing.TopologyParser.ReadServers | parse_topology.py:127-141 | the server loop ends in the fields and failure `ServersFrom` gives |
| TopologyParsing.TopologyParser.ReadServerLine | parse_topology.py:128-141 | one server line either fails or leaves the rest of the loop to the following lines |
| TopologyParsing.TopologyParser.ReadNeighbors | parse_topology.py:152-191 | the neighbour loop ends in the fields and failure `NeighborsFrom` gives |
| TopologyParsing.TopologyParser.ReadNeighborLine | parse_topology.py:153-191 | one neighbour line either fails or leaves the rest of the loop to the following lines |
| TopologyParsing.TopologyParser.ApplyLink | parse_topology.py:174-191 | the identity fix and the checks of one neighbour line end as `LinkStep` gives |
| TopologyFacts.NonBlankAppend | parse_topology.py:109 | filtering a concatenation filters each part |
| TopologyFacts.NonBlankOfClean | parse_topology.py:109 | stripped non-empty lines pass the filter unchanged |
| TopologyFacts.BlankLinesIgnored | parse_topology.py:109 | filtering the lines first does not change the outcome of `parse` |
| TopologyFacts.BlankLineIgnored | parse_topology.py:109 | a blank line anywhere in the file changes nothing |
| TopologyFacts.ServersFromEffect | parse_topology.py:127-141 | the server loop only adds servers and fails only on a bad server line |
| TopologyFacts.NeighborFieldsErrors | parse_topology.py:153-172 | reading a neighbour line fails only for reasons of its own |
| TopologyFacts.NeighborsLeftEffect | parse_topology.py:152-191 | the neighbour loop changes only neighbours and this server's identity, and raises no count error |
| TopologyFacts.ParseNeighborsEffect | parse_topology.py:146-191 | the neighbour section changes only neighbours and this server's identity, never raises `too short` or `not enough servers`, and raises `Not enough neighbor entries` exactly when its lines are missing |
| TopologyFacts.ParseNeighborsConsistent | parse_topology.py:146-191 | an accepted neighbour section keeps the fields consistent and the servers unchanged; it names this server and some neighbour exactly when the neighbour count is positive, and otherwise changes nothing |
| TopologyFacts.EntriesPresentFailures | parse_topology.py:121-150 | with all server lines present, `Not enough neighbor entries` is raised exactly when the server lines are good and neighbour lines are missing |
| TopologyFacts.EntriesFailures | parse_topology.py:121-150 | after the counts, each "not enough" error is raised exactly when its lines are missing |
| TopologyFacts.TooShortExactly | parse_topology.py:109-112 | `Topology file too short` exactly when fewer than two non-blank lines remain |
| TopologyFacts.NotEnoughExactly | parse_topology.py:111-150 | once both counts are read, each "not enough" error is raised exactly when its section is short and everything before it passed |
| TopologyFacts.NeighborFieldsShape | parse_topology.py:153-172 | a neighbour line is accepted exactly when it is at least three digits: first digit source, second neighbour, rest the cost |
| TopologyFacts.ServerEntryShape | parse_topology.py:128-141 | a server line is accepted exactly when it has three tokens: an integer id, a dotted quad and a port in 1..65535 |
| TopologyFacts.NeighborFieldsFinite | parse_topology.py:166-172 | an accepted neighbour line has a finite cost |
| TopologyFacts.ServersFromValid | parse_topology.py:136-141 | the server loop stores only valid addresses and ports |
| TopologyFacts.NeighborLineStep | parse_topology.py:153-191 | a neighbour line is rejected, or its fields with a finite cost go through the checks and the loop continues |
| TopologyFacts.LinkStepChecks | parse_topology.py:174-191 | the first line fixes the identity and address; a line passes exactly when its source is this (listed) server and its neighbour is a listed server other than this one, and then records the cost |
| TopologyFacts.LinkStepConsistent | parse_topology.py:174-191 | an accepted neighbour line keeps the fields consistent and records the neighbour |
| TopologyFacts.NeighborsLeftConsistent | parse_topology.py:152-191 | the neighbour loop keeps the fields consistent and only adds neighbours |
| TopologyFacts.EntriesConsistent | parse_topology.py:121-201 | from empty fields, the sections leave consistent fields, naming this server and a neighbour exactly when the neighbour count is positive |
| TopologyFacts.AcceptedConsistent | parse_topology.py:97-201 | a file accepted by a fresh parser has valid servers, neighbours that are other listed servers at finite costs, and this server's own listed address |
| TopologyFacts.EntriesKeepCounts | parse_topology.py:121-191 | the sections never change the counts |
| TopologyFacts.ServersLeftPrefix | parse_topology.py:127 | the server loop reads only lines before its end |
| TopologyFacts.NeighborFieldsPrefix | parse_topology.py:153 | a neighbour line reads the same with lines appended |
| TopologyFacts.NeighborsLeftPrefix | parse_topology.py:152 | the neighbour loop reads only lines before its end |
| TopologyFacts.NeighborLinePrefixStep | parse_topology.py:152-191 | one neighbour line with lines appended either ends both loops alike or moves both to the same next fields |
| TopologyFacts.NeighborsPrefix | parse_topology.py:146-191 | a complete neighbour section reads the same with lines appended |
| TopologyFacts.EntriesPrefix | parse_topology.py:121-191 | complete sections read the same with lines appended |
| TopologyFacts.TrailingLinesIgnored | parse_topology.py:146-201 | lines after the last neighbour line do not change the outcome of an accepted file |
| TopologyGeneration.ServerInfoLine | generate_topologies.py:116-117 | defines the server line `sid ip port`; `ServerInfoLineReads` states that it reads back |
| TopologyGeneration.LinkLine | generate_topologies.py:121 | defines the neighbour line, this id, the neighbour and the cost concatenated; `LinkLineReads` states that it reads back |
| TopologyGeneration.TopologyFile | generate_topologies.py:107-122 | defines the lines of one server's file; `FileLinesHeader`, `FileLinesServers`, `FileLinesLinks` and `TopologyFileRoundTrip` state its layout and that it parses back |
| TopologyGeneration.FileName | generate_topologies.py:105 | defines the file name `{prefix}{id}.txt`; `FileNameInjective` states that it tells servers apart |
| TopologyGeneration.GeneratedFiles | generate_topologies.py:101-124 | defines the map of every file written; `AllFiles` states its contents |
| TopologyGeneration.LocalConfig | generate_topologies.py:13-27 | defines `get_local_config`; `LocalConfigWellFormed` states that it is well formed |
| TopologyGeneration.ServerInfoLinesLength | generate_topologies.py:115-117 | one server line per id |
| TopologyGeneration.LinkLinesLength | generate_topologies.py:120-122 | one neighbour line per neighbour |
| TopologyGeneration.ServerInfoLinesAt | generate_topologies.py:115-117 | the k-th server line is `sid ip port` of the k-th id |
| TopologyGeneration.LinkLinesAt | generate_topologies.py:120-122 | the k-th neighbour line concatenates this id, the k-th neighbour and its cost |
| TopologyGeneration.ServerInfoLinesSnoc | generate_topologies.py:115-117 | one more id adds its line at the end |
| TopologyGeneration.LinkLinesSnoc | generate_topologies.py:120-122 | one more neighbour adds its line at the end |
| TopologyGeneration.FileLinesHeader | generate_topologies.py:108-112 | a file starts with the server count and the neighbour count, and has one line per server and per neighbour |
| TopologyGeneration.FileLinesServers | generate_topologies.py:108-117 | a file has one server line per id, and line 2+k is the k-th server's line |
| TopologyGeneration.FileLinesLinks | generate_topologies.py:108-122 | a file has one neighbour line per neighbour, and line 2+\|sids\|+k is the k-th neighbour's line |
| TopologyGeneration.SnocIndex | generate_topologies.py:115-122 | a line of a list with one line appended is the line of the front, or the appended line at the end |
| TopologyGeneration.WriteServerInfoLines | generate_topologies.py:115-117 | the loop writes the server lines of the ids in order |
| TopologyGeneration.WriteLinkLines | generate_topologies.py:120-122 | the loop writes the neighbour lines in order |
| TopologyGeneration.WriteTopologyFile | generate_topologies.py:107-122 | the lines written for a server are its topology file |
| TopologyGeneration.FileNameInjective | generate_topologies.py:105 | different servers get different file names |
| TopologyGeneration.EntriesSnoc | generate_topologies.py:104-107 | one more server adds its file last |
| TopologyGeneration.EntriesSpec | generate_topologies.py:104-107 | with distinct names, one entry per id holding that id's value, and no other entry |
| TopologyGeneration.FileNamesDistinct | generate_topologies.py:105 | distinct ids get distinct file names |
| TopologyGeneration.AllFiles | generate_topologies.py:101-124 | one file per server, named `{prefix}{id}.txt`, holding that server's view, and no other file |
| TopologyGeneration.GenerateTopologyFiles | generate_topologies.py:101-124 | the files written are one per server, named after it, with its topology file |
| TopologyGeneration.LocalConfigWellFormed | generate_topologies.py:13-27 | the local configuration is symmetric, links join distinct listed servers, and costs are non-negative |
| RoundTrip.SplitOnDigits | parse_topology.py:45-50 | text whose dot-separated parts are all digits consists of digits and dots only |
| RoundTrip.DottedQuadIsWord | generate_topologies.py:117 | a dotted quad holds no whitespace |
| RoundTrip.ServerInfoLineReads | generate_topologies.py:117 | a written server line of a valid server reads back as that id and address |
| RoundTrip.DigitString | generate_topologies.py:121 | a single-digit id is written as one digit |
| RoundTrip.LinkLineReads | generate_topologies.py:121 | a written neighbour line of single-digit ids and a non-negative cost reads back as the source, the neighbour and the cost |
| RoundTrip.RestrictStep | generate_topologies.py:115 | one more id adds its entry to the restricted map |
| RoundTrip.RestrictAll | generate_topologies.py:115 | restricting to all keys gives the map back |
| RoundTrip.ServerInfoLinesAre | generate_topologies.py:115-117 | the written server lines are, one per id in order, each server's `sid ip port` line |
| RoundTrip.LinkLinesAreGenerated | generate_topologies.py:120-122 | the written neighbour lines are, one per neighbour in order, each neighbour's concatenated line |
| RoundTrip.ServersRead | parse_topology.py:127-141 | the server loop over the k-th and later written server lines adds exactly those servers |
| RoundTrip.ServerLineStep | parse_topology.py:127-141 | a line equal to the k-th written server line stores that server and the loop goes on |
| RoundTrip.LinkLineStep | parse_topology.py:152-191 | one written neighbour line is recorded and the loop goes on |
| RoundTrip.LaterLinkAccepted | parse_topology.py:181-191 | a later written neighbour line passes the checks |
| RoundTrip.LaterLinkLineStep | parse_topology.py:152-191 | once this server is fixed, a line equal to the k-th written neighbour line records that neighbour's cost and the loop goes on |
| RoundTrip.LinksRead | parse_topology.py:152-191 | the neighbour loop over the k-th and later written neighbour lines records exactly those neighbours at their costs |
| RoundTrip.FirstLinkLineStep | parse_topology.py:174-191 | the first written neighbour line fixes this server's id, address and port and records its neighbour |
| RoundTrip.NeighborsRead | parse_topology.py:146-191 | the neighbour section over the written neighbour lines fixes this server and records exactly its neighbours at their costs |
| RoundTrip.ServerInfoLineClean | parse_topology.py:109 | a written server line is stripped and non-empty |
| RoundTrip.LinkLineClean | parse_topology.py:109 | a written neighbour line is stripped and non-empty |
| RoundTrip.NonBlankOne | parse_topology.py:109 | one clean line passes the filter |
| RoundTrip.ServerInfoLinesClean | parse_topology.py:109 | the server lines pass the filter unchanged |
| RoundTrip.LinkLinesClean | parse_topology.py:109 | the neighbour lines pass the filter unchanged |
| RoundTrip.FileLinesClean | parse_topology.py:109 | no line of a generated file is dropped or changed by the filter |
| RoundTrip.ParseBySections | parse_topology.py:111-191 | with both counts read, `parse` is the server section followed by the neighbour section |
| RoundTrip.LinesReadBack | parse_topology.py:111-191 | lines holding both counts, then the written server lines, then the written neighbour lines, parse to both counts, all servers, this server's id, address and port, and exactly its neighbours |
| RoundTrip.TopologyFileRoundTrip | parse_topology.py:97-201 | for single-digit ids and whole costs up to 2^53, parsing the file generated for a server gives both counts, all servers, this server's id, address and port, and exactly its neighbours at their costs |
| RoundTrip.GeneratedFilesRoundTrip | generate_topologies.py:101-124 | every file `generate_topology_files` writes for a well-formed configuration with single-digit ids and costs up to 2^53 parses back to that server's view of it |

## Left out

- File and console I/O: the parser receives the file's lines, and the generator returns a map from file name to lines. Newline writing, `open` failures (`Topology file not found`) and the `Created` messages are not modelled.
- `print` output: `packets` and `display` return what they would print (`PacketCount`, `Routes`) rather than printing it.
- Threads and `self.server.lock`: each command runs as one atomic step.
- `time.time()` is a parameter `now`.
- Floating point: a cost is a non-negative whole number, kept exactly, or infinity. `float()` is modelled only for an optional sign, ASCII digits and the infinity words. Fractions, exponents, `nan`, underscores and non-ASCII digits are not modelled. Neither is the rounding of a double: above 2^53 (`MaxExactWhole`) `float()` rounds to a nearby double, and from about 1.8 * 10^308 it gives `inf`.
- Text.FloatLiteral: keeps every digit string as its exact value. Python rounds values above 2^53 and turns a value of about 1.8 * 10^308 or more into `inf`.
- Text.ParseFloat: exact for every digit string, as `FloatLiteral` is.
- Text.FloatLiteralNumeral: states the exact value, which Python's `float()` gives only up to 2^53.
- Text.ParseFloatNumeral: states the exact value, which Python's `float()` gives only up to 2^53.
- Router.CostOfFloat: turns every parsed number into an exact `Fin` cost; a double above 2^53 is not exact.
- Commands.ReadCost: reads a digit string whose value is about 1.8 * 10^308 or more as a finite cost. In the source `float()` makes it `inf`, so `update` then invalidates the routes through the neighbour (commands.py:99-101) instead of refreshing the direct route.
- Commands.ReadCostOfNumeral: states the exact value, which the source's `float()` gives only up to 2^53.
- Commands.ParseCost: gives the exact whole value. The source gives the rounded double, or `inf` from about 1.8 * 10^308 on.
- Commands.ParseCostOfString: states `parse_cost(str(n)) == n` for every n. The source keeps this only for n up to 2^53.
- TopologyParsing.CostWord: gives the exact whole value. The source gives the rounded double, or `inf` from about 1.8 * 10^308 on.
- TopologyParsing.CostWordNumeral: states the exact value, which the source gives only up to 2^53.
- TopologyParsing.ParseCost: gives the exact whole value. The source gives the rounded double, or `inf` from about 1.8 * 10^308 on.
- TopologyParsing.ParseCostNumeral: states the exact value, which the source gives only up to 2^53.
- TopologyFacts.NeighborFieldsFinite: says an accepted neighbour cost is finite. In the source a cost of about 1.8 * 10^308 or more is stored as `inf`.
- TopologyFacts.AcceptedConsistent: says every stored neighbour cost is finite. In the source a cost of about 1.8 * 10^308 or more is stored as `inf`.
- Text.ParseInt: does not accept the digit-group underscores (`int("1_000")`) that Python allows.
- Text: `strip` and `split` use Python's full `str.isspace()` set (`IsSpace`). `lower` folds only ASCII letters, and `int()` and `float()` read only ASCII digits; Python also reads every other Unicode decimal digit (`int("١٢")` is 12).
- Text.ParseInt: reads an integer of any length. Python 3.11 and later refuses more than 4300 digits with `ValueError` unless the limit is raised.
- Text.IntToString: writes an integer of any length. Python 3.11 and later refuses `str()` of an integer with more than 4300 digits unless the limit is raised.
- TopologyParsing.ValidateIp: accepts ASCII digits only. The source's pattern `\d` (no `re.ASCII` flag) and its `int(part)` also accept every other Unicode decimal digit, so `validate_ip("١٢٧.٠.٠.١")` is true there and false here.
- TopologyParsing.ValidateIpPlain: states "exactly the dotted quads" of ASCII digits; the source also accepts quads written in other Unicode decimal digits.
- TopologyParsing.ValidateIpIsDottedQuad: the reference definition is over ASCII digits; the source also accepts quads written in other Unicode decimal digits.
- TopologyParsing.ServerEntry: rejects a server line whose address uses non-ASCII decimal digits, which the source stores.
- TopologyFacts.ServerEntryShape: states that an accepted address is a dotted quad of ASCII digits; the source also accepts one of other Unicode decimal digits.
- The routing engine of `DVServer` is not part of this model. This covers sockets, the periodic and on-demand broadcast behind `step`, the Bellman-Ford update, neighbour timeouts and the topology loader. Only the state fields of `dv.py:17-42` are modelled, without the socket and the lock.
- `get_remote_config`, `get_custom_config`, `print_instructions` and the argument parsing of `generate_topologies.py` are interactive or print only, and are not modelled.
- The `except Exception` branch of `process_command`: no handler of the model raises.
- `parse` error messages are abstracted to the kind of error (`ParseError`); every one of them surfaces as `ValueError`.
- TopologyGeneration.GenerateTopologyFiles: requires every server to have a topology entry; the source raises `KeyError` otherwise.
- TopologyGeneration.GenerateTopologyFiles: writes the files in ascending id order, not in the configuration's insertion order; the resulting map of files is the same.
- RoundTrip.TopologyFileRoundTrip: is stated for single-digit ids and neighbours and for whole costs from 0 to 2^53. Only single digits survive the concatenated neighbour format, and `float()` reads a larger whole number back as a different, rounded value.
- RoundTrip.GeneratedFilesRoundTrip: is stated for single-digit server ids with at least one neighbour each, and for costs of at most 2^53. A server with no neighbour would not have its id named in its file. A larger cost would be read back rounded.
- Commands.ValidateServerId: takes the id as a string and the valid range as a half-open `lo..hi` with step 1. The source takes `Any`, for which `int()` also accepts numbers and booleans, and any `range`, including stepped ones.
- Text.TrimLeft: its contract states only the shape of the result. That exactly the leading whitespace is dropped is stated by `TrimLeftSuffix`. The lemma is kept apart because the function occurs in nearly every proof that reads a line.
- Text.TrimRight: its contract states only the shape of the result. That exactly the trailing whitespace is dropped is stated by `TrimRightPrefix`, kept apart for the same reason.
- Text.Strip: its contract states only that the result has no whitespace at either end. That only the surrounding whitespace is removed is stated by `StripSurroundingBlank`, kept apart for the same reason.
- Text.Words: its contract states only that every token is non-empty and whitespace-free. That the tokens are the maximal non-whitespace runs in order is stated by `WordsSplitAtSpace`, `WordsOfBlank` and `WordsOfWord`.
