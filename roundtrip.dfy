/**
 * Writing a server's topology file and reading it back: for single-digit
 * server ids, valid addresses and ports, and non-negative costs, the parser
 * recovers exactly the servers, this server's id and address, and its
 * neighbours with their costs.
 */
module RoundTrip {
  import opened Wrappers
  import opened Text
  import opened Ordered
  import opened Router
  import opened Server
  import opened TopologyParsing
  import opened TopologyFacts
  import opened TopologyGeneration

  // ================================================================ one line at a time

  /** The parts of `split(sep)` are digits only, so the text is digits and separators. */
  lemma {:induction false} SplitOnDigits(s: string, sep: char)
    requires forall k :: 0 <= k < |SplitOn(s, sep)| ==> AllDigits(SplitOn(s, sep)[k])
    ensures forall i :: 0 <= i < |s| ==> IsDigit(s[i]) || s[i] == sep
    decreases |s|
  {
    var n := RunBefore(s, sep);
    var parts := SplitOn(s, sep);
    RunBeforeEnds(s, sep);
    if n == |s| {
      assert parts[0] == s;
    } else {
      var rest := s[n + 1..];
      assert parts == [s[..n]] + SplitOn(rest, sep);
      assert AllDigits(parts[0]);
      forall k | 0 <= k < |SplitOn(rest, sep)|
        ensures AllDigits(SplitOn(rest, sep)[k])
      {
        assert SplitOn(rest, sep)[k] == parts[k + 1];
      }
      SplitOnDigits(rest, sep);
      forall i | 0 <= i < |s|
        ensures IsDigit(s[i]) || s[i] == sep
      {
        if i < n {
          assert s[i] == parts[0][i];
        } else if i > n {
          assert s[i] == rest[i - n - 1];
        }
      }
    }
  }

  /** A dotted quad holds no whitespace, so `split()` keeps it as one token. */
  lemma DottedQuadIsWord(t: string)
    requires IsDottedQuad(t)
    ensures IsWord(t)
    ensures DropFinalNewline(t) == t
  {
    var parts := SplitOn(t, '.');
    forall k | 0 <= k < |parts|
      ensures AllDigits(parts[k])
    {
      assert GroupShaped(parts[k]);
    }
    SplitOnDigits(t, '.');
  }

  /** A generated server line reads back as that server's id and address. */
  lemma ServerInfoLineReads(sid: int, a: Address)
    requires IsDottedQuad(a.ip) && ValidatePort(a.port)
    ensures ServerEntry(ServerInfoLine(sid, a)) == Ok((sid, a))
  {
    DottedQuadIsWord(a.ip);
    IntToStringWord(sid);
    IntToStringWord(a.port);
    WordsOfThree(IntToString(sid), a.ip, IntToString(a.port));
    ParseIntOfString(sid);
    ParseIntOfWord(IntToString(sid));
    ParseIntOfString(a.port);
    ParseIntOfWord(IntToString(a.port));
    ValidateIpIsDottedQuad(a.ip);
  }

  /** `str(d)` of a single digit is that digit's character. */
  lemma DigitString(d: int)
    requires 0 <= d <= 9
    ensures IntToString(d) == [DigitChar(d)]
  {
  }

  /** A generated neighbour line of single-digit ids reads back as its three fields. */
  lemma LinkLineReads(lines: seq<string>, i: int, id: int, n: int, c: int)
    requires 0 <= i < |lines|
    requires lines[i] == LinkLine(id, n, c)
    requires 0 <= id <= 9 && 0 <= n <= 9 && c >= 0
    ensures NeighborFields(lines, i) == Ok((id, n, Fin(c)))
  {
    DigitString(id);
    DigitString(n);
    var tail := NatToString(c);
    NatToStringValue(c);
    var entry := lines[i];
    assert entry == [DigitChar(id), DigitChar(n)] + tail;
    assert entry[2..] == tail;
    assert IsNumeral(entry) by {
      forall j | 0 <= j < |entry|
        ensures IsDigit(entry[j])
      {
        if j >= 2 {
          assert entry[j] == tail[j - 2];
        }
      }
    }
    StripNumeral(entry);
    NeighborFieldsShape(lines, i);
  }

  // ================================================================ the sections of a file

  /** The entries of `m` whose keys are listed in `ids`. */
  function Restrict<V>(m: map<int, V>, ids: seq<int>): map<int, V> {
    map x | x in ids && x in m :: m[x]
  }

  /** Reading the entry of `ids[k]` first, then those of the later ids, gives those of `ids[k..]`. */
  lemma RestrictStep<V>(acc: map<int, V>, m: map<int, V>, ids: seq<int>, k: int)
    requires 0 <= k < |ids| && ids[k] in m
    ensures acc[ids[k] := m[ids[k]]] + Restrict(m, ids[k + 1..]) == acc + Restrict(m, ids[k..])
  {
    assert ids[k..] == [ids[k]] + ids[k + 1..];
    var lhs, rhs := acc[ids[k] := m[ids[k]]] + Restrict(m, ids[k + 1..]), acc + Restrict(m, ids[k..]);
    assert lhs.Keys == rhs.Keys;
    forall x | x in lhs
      ensures lhs[x] == rhs[x]
    {
    }
  }

  /** When `ids` lists every key, restricting to them changes nothing. */
  lemma RestrictAll<V>(m: map<int, V>, ids: seq<int>)
    requires forall x :: x in m ==> x in ids
    ensures map[] + Restrict(m, ids) == m
  {
    var r := map[] + Restrict(m, ids);
    forall x
      ensures x in r <==> x in m
    {
      if x in m {
        assert x in ids;
      }
    }
    assert r.Keys == m.Keys;
  }

  /**
   * `want` holds, in order, the generated lines of the listed servers
   * `sids`. Each line's text is reached only through its `ServerInfoLine`
   * term, so a proof that carries `want` along does not unfold it.
   */
  predicate ServerLinesAre(want: seq<string>, servers: map<int, Address>, sids: seq<int>) {
    |want| == |sids| && (forall j :: 0 <= j < |sids| ==> sids[j] in servers) &&
    forall j {:trigger ServerInfoLine(sids[j], servers[sids[j]])} :: 0 <= j < |sids| ==>
      want[j] == ServerInfoLine(sids[j], servers[sids[j]])
  }

  /** The lines `generate_topology_files` writes for `sids` are those lines. */
  lemma ServerInfoLinesAre(servers: map<int, Address>, sids: seq<int>)
    requires forall k :: 0 <= k < |sids| ==> sids[k] in servers
    ensures ServerLinesAre(ServerInfoLines(servers, sids), servers, sids)
  {
    ServerInfoLinesAt(servers, sids);
  }

  /**
   * The server loop over lines `2 + k` to `2 + |sids|` holding the
   * generated lines of the listed servers from the `k`-th on stores each
   * one's address under its id and succeeds.
   */
  lemma {:induction false} ServersRead(lines: seq<string>, want: seq<string>, servers: map<int, Address>, sids: seq<int>, k: nat, st: ParserState)
    requires k <= |sids| && 2 + |sids| <= |lines|
    requires ServersValid(servers) && ServerLinesAre(want, servers, sids)
    requires forall j :: k <= j < |sids| ==> lines[2 + j] == want[j]
    ensures ServersLeft(lines, 2 + k, 2 + |sids|, st) == Outcome(st.(servers := st.servers + Restrict(servers, sids[k..])), None)
    decreases |sids| - k
  {
    if k == |sids| {
      assert Restrict(servers, sids[k..]) == map[];
      assert st.servers + map[] == st.servers;
    } else {
      var sid := sids[k];
      ServerLineStep(lines, 2 + k, 2 + |sids|, st, want, servers, sids, k);
      var next := st.(servers := st.servers[sid := servers[sid]]);
      ServersRead(lines, want, servers, sids, k + 1, next);
      RestrictStep(st.servers, servers, sids, k);
    }
  }

  /** Line `i` holding the generated line of the `k`-th listed server: its entry is stored, then the loop goes on. */
  lemma ServerLineStep(lines: seq<string>, i: int, end: int, st: ParserState, want: seq<string>, servers: map<int, Address>, sids: seq<int>, k: int)
    requires 0 <= i < end <= |lines| && 0 <= k < |sids|
    requires ServersValid(servers) && ServerLinesAre(want, servers, sids) && lines[i] == want[k]
    ensures sids[k] in servers
    ensures ServersLeft(lines, i, end, st) == ServersLeft(lines, i + 1, end, st.(servers := st.servers[sids[k] := servers[sids[k]]]))
  {
    var sid := sids[k];
    assert want[k] == ServerInfoLine(sid, servers[sid]);
    ServerInfoLineReads(sid, servers[sid]);
    assert ServersLeft(lines, i, end, st) == ServerLine(lines, i, end, st);
  }

  /** One generated neighbour line: the link checks, then the loop goes on. */
  lemma LinkLineStep(lines: seq<string>, start: int, i: int, end: int, st: ParserState, id: int, n: int, c: int)
    requires 0 <= i < end <= |lines|
    requires lines[i] == LinkLine(id, n, c)
    requires 0 <= id <= 9 && 0 <= n <= 9 && c >= 0
    ensures NeighborsLeft(lines, start, i, end, st)
      == (var o := LinkStep(start, i, id, n, Fin(c), st);
          if o.failure.Some? then o else NeighborsLeft(lines, start, i + 1, end, o.state))
  {
    LinkLineReads(lines, i, id, n, c);
    assert NeighborsLeft(lines, start, i, end, st) == NeighborLine(lines, start, i, end, st);
  }

  /** A later neighbour line from this server to another listed one is stored. */
  lemma LaterLinkAccepted(start: int, i: int, id: int, n: int, cost: Cost, st: ParserState)
    requires i != start && st.myServerId == Some(id)
    requires n in st.servers && n != id
    ensures LinkStep(start, i, id, n, cost, st) == Outcome(st.(neighbors := st.neighbors[n := cost]), None)
  {
  }

  /** The costs of a neighbour map as the parser stores them. */
  function Costs(neighbors: map<int, int>): map<int, Cost>
    requires forall n :: n in neighbors ==> neighbors[n] >= 0
  {
    map n | n in neighbors :: Fin(neighbors[n])
  }

  /**
   * `want` holds, in order, the generated neighbour lines of server `id`
   * for the neighbours `nids`; as with `ServerLinesAre`, each line's text is
   * reached only through its `LinkLine` term.
   */
  predicate LinkLinesAre(want: seq<string>, id: int, neighbors: map<int, int>, nids: seq<int>) {
    |want| == |nids| && (forall j :: 0 <= j < |nids| ==> nids[j] in neighbors) &&
    forall j {:trigger LinkLine(id, nids[j], neighbors[nids[j]])} :: 0 <= j < |nids| ==>
      want[j] == LinkLine(id, nids[j], neighbors[nids[j]])
  }

  /** The lines `generate_topology_files` writes for `nids` are those lines. */
  lemma LinkLinesAreGenerated(id: int, neighbors: map<int, int>, nids: seq<int>)
    requires forall k :: 0 <= k < |nids| ==> nids[k] in neighbors
    ensures LinkLinesAre(LinkLines(id, neighbors, nids), id, neighbors, nids)
  {
    LinkLinesAt(id, neighbors, nids);
  }

  /**
   * A later line holding the generated line from this server to its `k`-th
   * neighbour: the cost is stored, then the loop goes on.
   */
  lemma LaterLinkLineStep(lines: seq<string>, start: int, i: int, end: int, st: ParserState,
                          id: int, want: seq<string>, neighbors: map<int, int>, nids: seq<int>, k: int)
    requires 0 <= i < end <= |lines| && i != start && 0 <= k < |nids|
    requires LinkLinesAre(want, id, neighbors, nids) && lines[i] == want[k]
    requires 0 <= id <= 9 && st.myServerId == Some(id)
    requires forall n :: n in neighbors ==> n in st.servers && n != id && 0 <= n <= 9 && neighbors[n] >= 0
    ensures nids[k] in neighbors && neighbors[nids[k]] >= 0
    ensures NeighborsLeft(lines, start, i, end, st)
      == NeighborsLeft(lines, start, i + 1, end, st.(neighbors := st.neighbors[nids[k] := Fin(neighbors[nids[k]])]))
  {
    var n := nids[k];
    assert want[k] == LinkLine(id, n, neighbors[n]);
    LinkLineStep(lines, start, i, end, st, id, n, neighbors[n]);
    LaterLinkAccepted(start, i, id, n, Fin(neighbors[n]), st);
  }

  /**
   * After the first neighbour line has fixed this server's id, the
   * neighbour loop over lines holding the generated neighbour lines from the
   * `k`-th on stores each neighbour's cost and succeeds.
   */
  lemma {:induction false} LinksRead(lines: seq<string>, start: int, id: int, want: seq<string>, neighbors: map<int, int>, nids: seq<int>, k: nat, st: ParserState)
    requires 0 <= start && k <= |nids| && start + |nids| <= |lines| && k != 0
    requires 0 <= id <= 9 && st.myServerId == Some(id)
    requires forall n :: n in neighbors ==> n in st.servers && n != id && 0 <= n <= 9 && neighbors[n] >= 0
    requires LinkLinesAre(want, id, neighbors, nids)
    requires forall j :: k <= j < |nids| ==> lines[start + j] == want[j]
    ensures NeighborsLeft(lines, start, start + k, start + |nids|, st)
      == Outcome(st.(neighbors := st.neighbors + Restrict(Costs(neighbors), nids[k..])), None)
    decreases |nids| - k
  {
    if k == |nids| {
      assert Restrict(Costs(neighbors), nids[k..]) == map[];
      assert st.neighbors + map[] == st.neighbors;
    } else {
      var n := nids[k];
      LaterLinkLineStep(lines, start, start + k, start + |nids|, st, id, want, neighbors, nids, k);
      var next := st.(neighbors := st.neighbors[n := Fin(neighbors[n])]);
      LinksRead(lines, start, id, want, neighbors, nids, k + 1, next);
      RestrictStep(st.neighbors, Costs(neighbors), nids, k);
    }
  }

  /**
   * The first line holding the generated neighbour lines: it fixes this
   * server's id, ip and port from the listed servers and stores the first
   * neighbour's cost.
   */
  lemma FirstLinkLineStep(lines: seq<string>, start: int, end: int, st: ParserState,
                          id: int, want: seq<string>, neighbors: map<int, int>, nids: seq<int>)
    requires 0 <= start < end <= |lines| && 1 <= |nids|
    requires LinkLinesAre(want, id, neighbors, nids) && lines[start] == want[0]
    requires 0 <= id <= 9 && id in st.servers
    requires forall n :: n in neighbors ==> n in st.servers && n != id && 0 <= n <= 9 && neighbors[n] >= 0
    ensures nids[0] in neighbors && neighbors[nids[0]] >= 0
    ensures NeighborsLeft(lines, start, start, end, st)
      == NeighborsLeft(lines, start, start + 1, end,
           st.(myServerId := Some(id), myIp := Some(st.servers[id].ip), myPort := Some(st.servers[id].port),
               neighbors := st.neighbors[nids[0] := Fin(neighbors[nids[0]])]))
  {
    var n := nids[0];
    assert want[0] == LinkLine(id, n, neighbors[n]);
    LinkLineStep(lines, start, start, end, st, id, n, neighbors[n]);
  }

  /**
   * The whole neighbour loop over lines holding the generated neighbour
   * lines: this server's id and address are fixed, every neighbour's cost is
   * stored, and it succeeds.
   */
  lemma NeighborsRead(lines: seq<string>, start: int, id: int, want: seq<string>, neighbors: map<int, int>, nids: seq<int>, st: ParserState)
    requires 0 <= start && 1 <= |nids| && start + |nids| <= |lines|
    requires 0 <= id <= 9 && id in st.servers
    requires forall n :: n in neighbors ==> n in st.servers && n != id && 0 <= n <= 9 && neighbors[n] >= 0
    requires LinkLinesAre(want, id, neighbors, nids)
    requires forall j :: 0 <= j < |nids| ==> lines[start + j] == want[j]
    ensures NeighborsLeft(lines, start, start, start + |nids|, st)
      == Outcome(st.(myServerId := Some(id), myIp := Some(st.servers[id].ip), myPort := Some(st.servers[id].port),
                     neighbors := st.neighbors + Restrict(Costs(neighbors), nids)), None)
  {
    var n := nids[0];
    FirstLinkLineStep(lines, start, start + |nids|, st, id, want, neighbors, nids);
    var me := st.(myServerId := Some(id), myIp := Some(st.servers[id].ip), myPort := Some(st.servers[id].port));
    LinksRead(lines, start, id, want, neighbors, nids, 1, me.(neighbors := me.neighbors[n := Fin(neighbors[n])]));
    RestrictStep(st.neighbors, Costs(neighbors), nids, 0);
    assert nids[0..] == nids;
  }

  // ================================================================ the whole file

  /** A server line begins with its id and ends with its port, so `strip()` leaves it as it is. */
  lemma ServerInfoLineClean(sid: int, a: Address)
    ensures ServerInfoLine(sid, a) != [] && Stripped(ServerInfoLine(sid, a))
  {
    IntToStringWord(sid);
    IntToStringWord(a.port);
  }

  /** A neighbour line begins and ends with a digit, so `strip()` leaves it as it is. */
  lemma LinkLineClean(id: int, n: int, c: int)
    ensures LinkLine(id, n, c) != [] && Stripped(LinkLine(id, n, c))
  {
    IntToStringWord(id);
    IntToStringWord(c);
  }

  /** A line that is not blank and has no surrounding whitespace passes the filter as it is. */
  lemma NonBlankOne(line: string)
    requires line != [] && Stripped(line)
    ensures NonBlank([line]) == [line]
  {
    StripUnchanged(line);
    assert [line][1..] == [];
  }

  /** The server lines pass the blank-line filter unchanged. */
  lemma {:induction false} ServerInfoLinesClean(servers: map<int, Address>, sids: seq<int>)
    requires forall k :: 0 <= k < |sids| ==> sids[k] in servers
    ensures NonBlank(ServerInfoLines(servers, sids)) == ServerInfoLines(servers, sids)
  {
    if sids != [] {
      var front, last := sids[..|sids| - 1], sids[|sids| - 1];
      ServerInfoLinesClean(servers, front);
      ServerInfoLineClean(last, servers[last]);
      NonBlankOne(ServerInfoLine(last, servers[last]));
      NonBlankAppend(ServerInfoLines(servers, front), [ServerInfoLine(last, servers[last])]);
    }
  }

  /** The neighbour lines pass the blank-line filter unchanged. */
  lemma {:induction false} LinkLinesClean(id: int, neighbors: map<int, int>, nids: seq<int>)
    requires forall k :: 0 <= k < |nids| ==> nids[k] in neighbors
    ensures NonBlank(LinkLines(id, neighbors, nids)) == LinkLines(id, neighbors, nids)
  {
    if nids != [] {
      var front, last := nids[..|nids| - 1], nids[|nids| - 1];
      LinkLinesClean(id, neighbors, front);
      LinkLineClean(id, last, neighbors[last]);
      NonBlankOne(LinkLine(id, last, neighbors[last]));
      NonBlankAppend(LinkLines(id, neighbors, front), [LinkLine(id, last, neighbors[last])]);
    }
  }

  /** No generated line is blank or has surrounding whitespace, so the filter keeps the file as it is. */
  lemma FileLinesClean(servers: map<int, Address>, neighbors: map<int, int>, id: int, sids: seq<int>, nids: seq<int>)
    requires forall k :: 0 <= k < |sids| ==> sids[k] in servers
    requires forall k :: 0 <= k < |nids| ==> nids[k] in neighbors
    ensures NonBlank(FileLines(servers, neighbors, id, sids, nids)) == FileLines(servers, neighbors, id, sids, nids)
  {
    var a, b := IntToString(|servers|), IntToString(|neighbors|);
    IntToStringWord(|servers|);
    IntToStringWord(|neighbors|);
    NonBlankOne(a);
    NonBlankOne(b);
    NonBlankAppend([a], [b]);
    assert [a] + [b] == [a, b];
    ServerInfoLinesClean(servers, sids);
    LinkLinesClean(id, neighbors, nids);
    NonBlankAppend([a, b], ServerInfoLines(servers, sids));
    NonBlankAppend([a, b] + ServerInfoLines(servers, sids), LinkLines(id, neighbors, nids));
  }

  /**
   * `parse` on filtered lines whose counts read as `ns` and `nn`: when the
   * server loop succeeds with fields `mid` and the neighbour loop from there
   * ends in `o`, the whole parse ends in `o`.
   */
  lemma ParseBySections(lines: seq<string>, st: ParserState, sids: seq<int>, nids: seq<int>, mid: ParserState)
    requires |lines| == 2 + |sids| + |nids|
    requires ParseInt(lines[0]) == Some(|sids|) && ParseInt(lines[1]) == Some(|nids|)
    requires ServersLeft(lines, 2, 2 + |sids|, st.(numServers := |sids|, numNeighbors := |nids|)) == Outcome(mid, None)
    requires mid.numServers == |sids| && mid.numNeighbors == |nids|
    ensures ParseLines(lines, st) == NeighborsLeft(lines, 2 + |sids|, 2 + |sids|, 2 + |sids| + |nids|, mid)
  {
    assert ParseLines(lines, st) == ParseEntries(lines, st.(numServers := |sids|, numNeighbors := |nids|));
  }

  /**
   * `parse` on lines laid out as a generated file: the two counts, the
   * lines `swant` of the listed servers `sids`, then the lines `lwant` of
   * this server's neighbours `nids`. A fresh parser recovers the counts,
   * every listed server's address, this server's id, ip and port, and
   * exactly its neighbours at their costs, and raises nothing.
   */
  lemma LinesReadBack(lines: seq<string>, swant: seq<string>, lwant: seq<string>,
                      servers: map<int, Address>, neighbors: map<int, int>, id: int, sids: seq<int>, nids: seq<int>)
    requires |lines| == 2 + |sids| + |nids| && 1 <= |nids|
    requires ParseInt(lines[0]) == Some(|sids|) && ParseInt(lines[1]) == Some(|nids|)
    requires ServersValid(servers) && ServerLinesAre(swant, servers, sids)
    requires forall j :: 0 <= j < |sids| ==> lines[2 + j] == swant[j]
    requires forall x :: x in servers ==> x in sids
    requires LinkLinesAre(lwant, id, neighbors, nids)
    requires forall j :: 0 <= j < |nids| ==> lines[2 + |sids| + j] == lwant[j]
    requires forall n :: n in neighbors ==> n in nids
    requires id in servers && 0 <= id <= 9
    requires forall n :: n in neighbors ==> n in servers && n != id && 0 <= n <= 9 && neighbors[n] >= 0
    ensures ParseLines(lines, Fresh)
      == Outcome(ParserState(|sids|, |nids|, servers, Costs(neighbors),
                             Some(id), Some(servers[id].ip), Some(servers[id].port)), None)
  {
    var st := Fresh.(numServers := |sids|, numNeighbors := |nids|);
    ServersRead(lines, swant, servers, sids, 0, st);
    assert sids[0..] == sids;
    RestrictAll(servers, sids);
    var mid := st.(servers := servers);
    NeighborsRead(lines, 2 + |sids|, id, lwant, neighbors, nids, mid);
    RestrictAll(Costs(neighbors), nids);
    ParseBySections(lines, Fresh, sids, nids, mid);
  }

  /**
   * The round trip of `generate_topology_files` and `parse`: a fresh parser
   * reading the file of server `id` recovers the counts, every listed
   * server's address, this server's id, ip and port, and exactly its
   * neighbours at their costs, and raises nothing. It holds when this server
   * and its neighbours have single-digit ids (the neighbour lines put the
   * numbers side by side), the addresses and ports are valid, there is at
   * least one neighbour, none is this server itself or unlisted, and every
   * cost is a non-negative integer.
   */
  lemma TopologyFileRoundTrip(servers: map<int, Address>, neighbors: map<int, int>, id: int)
    requires id in servers && 0 <= id <= 9
    requires ServersValid(servers)
    requires neighbors != map[]
    requires forall n :: n in neighbors ==> n in servers && n != id && 0 <= n <= 9 && neighbors[n] >= 0
    requires forall n :: n in neighbors ==> neighbors[n] <= MaxExactWhole
    ensures ParseTopology(TopologyFile(servers, neighbors, id), Fresh)
      == Outcome(ParserState(|servers|, |neighbors|, servers, Costs(neighbors),
                             Some(id), Some(servers[id].ip), Some(servers[id].port)), None)
  {
    SortedKeysMembers(servers.Keys);
    SortedKeysMembers(neighbors.Keys);
    var sids, nids := SortedKeys(servers.Keys), SortedKeys(neighbors.Keys);
    assert |sids| == |servers| && |nids| == |neighbors|;
    var lines := FileLines(servers, neighbors, id, sids, nids);
    assert TopologyFile(servers, neighbors, id) == lines;
    FileLinesClean(servers, neighbors, id, sids, nids);
    FileLinesHeader(servers, neighbors, id, sids, nids);
    ParseIntOfString(|sids|);
    ParseIntOfString(|nids|);
    FileLinesServers(servers, neighbors, id, sids, nids);
    ServerInfoLinesAre(servers, sids);
    FileLinesLinks(servers, neighbors, id, sids, nids);
    LinkLinesAreGenerated(id, neighbors, nids);
    LinesReadBack(lines, ServerInfoLines(servers, sids), LinkLines(id, neighbors, nids), servers, neighbors, id, sids, nids);
    assert ParseTopology(TopologyFile(servers, neighbors, id), Fresh) == ParseLines(lines, Fresh);
  }

  /**
   * Every file `generate_topology_files` writes for a well-formed
   * configuration of single-digit ids, where every server has a neighbour,
   * reads back as that server's view of the configuration.
   */
  lemma GeneratedFilesRoundTrip(servers: map<int, Address>, topology: Topology, prefix: string)
    requires WellFormedConfig(servers, topology) && ServersValid(servers)
    requires forall id :: id in servers ==> 0 <= id <= 9 && topology[id] != map[]
    requires forall id, n :: id in servers && n in topology[id] ==> topology[id][n] <= MaxExactWhole
    ensures var files := GeneratedFiles(servers, topology, prefix);
      forall id :: id in servers ==>
        && FileName(prefix, id) in files
        && ParseTopology(files[FileName(prefix, id)], Fresh)
           == Outcome(ParserState(|servers|, |topology[id]|, servers, Costs(topology[id]),
                                  Some(id), Some(servers[id].ip), Some(servers[id].port)), None)
  {
    AllFiles(servers, topology, prefix);
    forall id | id in servers
      ensures ParseTopology(TopologyFile(servers, topology[id], id), Fresh)
           == Outcome(ParserState(|servers|, |topology[id]|, servers, Costs(topology[id]),
                                  Some(id), Some(servers[id].ip), Some(servers[id].port)), None)
    {
      TopologyFileRoundTrip(servers, topology[id], id);
    }
  }
}
