/**
 * The topology file writer: one file per server, holding the server count,
 * this server's neighbour count, one `id ip port` line per server in
 * ascending id order, and one `<id><neighbour><cost>` line per neighbour in
 * ascending neighbour order. The files are returned as values (file name to
 * lines, without their newlines) rather than written to disk.
 */
module TopologyGeneration {
  import opened Text
  import opened Ordered
  import opened Server
  import opened TopologyParsing

  /** Link costs as the configurations give them: whole numbers. */
  type Topology = map<int, map<int, int>>

  /** `f"{sid} {ip} {port}"`. */
  function ServerInfoLine(sid: int, a: Address): string {
    IntToString(sid) + " " + a.ip + " " + IntToString(a.port)
  }

  /** `f"{server_id}{neighbor_id}{cost}"`: the three numbers with no separator. */
  function LinkLine(id: int, neighbor: int, cost: int): string {
    IntToString(id) + IntToString(neighbor) + IntToString(cost)
  }

  /** The server lines for the ids `sids`, in that order. */
  function ServerInfoLines(servers: map<int, Address>, sids: seq<int>): seq<string>
    requires forall k :: 0 <= k < |sids| ==> sids[k] in servers
  {
    if sids == [] then []
    else ServerInfoLines(servers, sids[..|sids| - 1]) + [ServerInfoLine(sids[|sids| - 1], servers[sids[|sids| - 1]])]
  }

  /** The neighbour lines of server `id` for the neighbours `nids`, in that order. */
  function LinkLines(id: int, neighbors: map<int, int>, nids: seq<int>): seq<string>
    requires forall k :: 0 <= k < |nids| ==> nids[k] in neighbors
  {
    if nids == [] then []
    else LinkLines(id, neighbors, nids[..|nids| - 1]) + [LinkLine(id, nids[|nids| - 1], neighbors[nids[|nids| - 1]])]
  }

  /** The counts, then the server lines for `sids`, then the neighbour lines for `nids`. */
  function FileLines(servers: map<int, Address>, neighbors: map<int, int>, id: int, sids: seq<int>, nids: seq<int>): seq<string>
    requires forall k :: 0 <= k < |sids| ==> sids[k] in servers
    requires forall k :: 0 <= k < |nids| ==> nids[k] in neighbors
  {
    [IntToString(|servers|), IntToString(|neighbors|)] + ServerInfoLines(servers, sids) + LinkLines(id, neighbors, nids)
  }

  /**
   * The lines of the file for server `id`, whose neighbours and costs are
   * `neighbors`: servers and neighbours each in ascending id order.
   */
  function TopologyFile(servers: map<int, Address>, neighbors: map<int, int>, id: int): seq<string> {
    SortedKeysMembers(servers.Keys);
    SortedKeysMembers(neighbors.Keys);
    FileLines(servers, neighbors, id, SortedKeys(servers.Keys), SortedKeys(neighbors.Keys))
  }

  lemma {:induction false} ServerInfoLinesLength(servers: map<int, Address>, sids: seq<int>)
    requires forall k :: 0 <= k < |sids| ==> sids[k] in servers
    ensures |ServerInfoLines(servers, sids)| == |sids|
  {
    if sids != [] {
      ServerInfoLinesLength(servers, sids[..|sids| - 1]);
    }
  }

  lemma {:induction false} LinkLinesLength(id: int, neighbors: map<int, int>, nids: seq<int>)
    requires forall k :: 0 <= k < |nids| ==> nids[k] in neighbors
    ensures |LinkLines(id, neighbors, nids)| == |nids|
  {
    if nids != [] {
      LinkLinesLength(id, neighbors, nids[..|nids| - 1]);
    }
  }

  /** Line `k` of `front + [last]`: a line of `front`, or `last` at the end. */
  lemma SnocIndex(lines: seq<string>, front: seq<string>, last: string, k: int)
    requires lines == front + [last] && 0 <= k < |lines|
    ensures k < |front| ==> lines[k] == front[k]
    ensures k == |front| ==> lines[k] == last
  {
  }

  lemma {:induction false} ServerInfoLinesAt(servers: map<int, Address>, sids: seq<int>)
    requires forall k :: 0 <= k < |sids| ==> sids[k] in servers
    ensures |ServerInfoLines(servers, sids)| == |sids|
    ensures forall k :: 0 <= k < |sids| ==> ServerInfoLines(servers, sids)[k] == ServerInfoLine(sids[k], servers[sids[k]])
  {
    if sids != [] {
      var init := sids[..|sids| - 1];
      ServerInfoLinesAt(servers, init);
      var lines, front := ServerInfoLines(servers, sids), ServerInfoLines(servers, init);
      var last := ServerInfoLine(sids[|sids| - 1], servers[sids[|sids| - 1]]);
      assert lines == front + [last];
      forall k | 0 <= k < |sids|
        ensures lines[k] == ServerInfoLine(sids[k], servers[sids[k]])
      {
        SnocIndex(lines, front, last, k);
        if k < |init| {
          assert sids[k] == init[k];
        }
      }
    }
  }

  lemma {:induction false} LinkLinesAt(id: int, neighbors: map<int, int>, nids: seq<int>)
    requires forall k :: 0 <= k < |nids| ==> nids[k] in neighbors
    ensures |LinkLines(id, neighbors, nids)| == |nids|
    ensures forall k :: 0 <= k < |nids| ==> LinkLines(id, neighbors, nids)[k] == LinkLine(id, nids[k], neighbors[nids[k]])
  {
    if nids != [] {
      var init := nids[..|nids| - 1];
      LinkLinesAt(id, neighbors, init);
      var lines, front := LinkLines(id, neighbors, nids), LinkLines(id, neighbors, init);
      var last := LinkLine(id, nids[|nids| - 1], neighbors[nids[|nids| - 1]]);
      assert lines == front + [last];
      forall k | 0 <= k < |nids|
        ensures lines[k] == LinkLine(id, nids[k], neighbors[nids[k]])
      {
        SnocIndex(lines, front, last, k);
        if k < |init| {
          assert nids[k] == init[k];
        }
      }
    }
  }

  /** One more server id adds its line at the end. */
  lemma ServerInfoLinesSnoc(servers: map<int, Address>, sids: seq<int>, k: int)
    requires 0 <= k < |sids|
    requires forall j :: 0 <= j < |sids| ==> sids[j] in servers
    ensures ServerInfoLines(servers, sids[..k + 1]) == ServerInfoLines(servers, sids[..k]) + [ServerInfoLine(sids[k], servers[sids[k]])]
  {
    var prefix := sids[..k + 1];
    assert prefix[..k] == sids[..k];
    assert prefix[k] == sids[k];
  }

  /** One more neighbour adds its line at the end. */
  lemma LinkLinesSnoc(id: int, neighbors: map<int, int>, nids: seq<int>, k: int)
    requires 0 <= k < |nids|
    requires forall j :: 0 <= j < |nids| ==> nids[j] in neighbors
    ensures LinkLines(id, neighbors, nids[..k + 1]) == LinkLines(id, neighbors, nids[..k]) + [LinkLine(id, nids[k], neighbors[nids[k]])]
  {
    var prefix := nids[..k + 1];
    assert prefix[..k] == nids[..k];
    assert prefix[k] == nids[k];
  }

  /** A file starts with the server count and the neighbour count, and has one line per server and per neighbour. */
  lemma FileLinesHeader(servers: map<int, Address>, neighbors: map<int, int>, id: int, sids: seq<int>, nids: seq<int>)
    requires forall k :: 0 <= k < |sids| ==> sids[k] in servers
    requires forall k :: 0 <= k < |nids| ==> nids[k] in neighbors
    ensures var lines := FileLines(servers, neighbors, id, sids, nids);
      && |lines| == 2 + |sids| + |nids|
      && lines[0] == IntToString(|servers|)
      && lines[1] == IntToString(|neighbors|)
  {
    ServerInfoLinesLength(servers, sids);
    LinkLinesLength(id, neighbors, nids);
  }

  /** After the two counts come the server lines: line `2 + k` of a file is the `k`-th server line. */
  lemma FileLinesServers(servers: map<int, Address>, neighbors: map<int, int>, id: int, sids: seq<int>, nids: seq<int>)
    requires forall k :: 0 <= k < |sids| ==> sids[k] in servers
    requires forall k :: 0 <= k < |nids| ==> nids[k] in neighbors
    ensures |FileLines(servers, neighbors, id, sids, nids)| == 2 + |sids| + |nids|
    ensures |ServerInfoLines(servers, sids)| == |sids|
    ensures forall k :: 0 <= k < |sids| ==>
      FileLines(servers, neighbors, id, sids, nids)[2 + k] == ServerInfoLines(servers, sids)[k]
  {
    FileLinesHeader(servers, neighbors, id, sids, nids);
    ServerInfoLinesLength(servers, sids);
    var head, body := [IntToString(|servers|), IntToString(|neighbors|)], ServerInfoLines(servers, sids);
    var lines := FileLines(servers, neighbors, id, sids, nids);
    assert lines == (head + body) + LinkLines(id, neighbors, nids);
    forall k | 0 <= k < |sids|
      ensures lines[2 + k] == body[k]
    {
      assert lines[2 + k] == (head + body)[2 + k];
    }
  }

  /** After the server lines come the neighbour lines: line `2 + |sids| + k` of a file is the `k`-th neighbour line. */
  lemma FileLinesLinks(servers: map<int, Address>, neighbors: map<int, int>, id: int, sids: seq<int>, nids: seq<int>)
    requires forall k :: 0 <= k < |sids| ==> sids[k] in servers
    requires forall k :: 0 <= k < |nids| ==> nids[k] in neighbors
    ensures |FileLines(servers, neighbors, id, sids, nids)| == 2 + |sids| + |nids|
    ensures |LinkLines(id, neighbors, nids)| == |nids|
    ensures forall k :: 0 <= k < |nids| ==>
      FileLines(servers, neighbors, id, sids, nids)[2 + |sids| + k] == LinkLines(id, neighbors, nids)[k]
  {
    FileLinesHeader(servers, neighbors, id, sids, nids);
    ServerInfoLinesLength(servers, sids);
    LinkLinesLength(id, neighbors, nids);
    var front := [IntToString(|servers|), IntToString(|neighbors|)] + ServerInfoLines(servers, sids);
    assert FileLines(servers, neighbors, id, sids, nids) == front + LinkLines(id, neighbors, nids);
  }

  /** The loop over `sorted(servers.keys())`, one `id ip port` line per server. */
  method WriteServerInfoLines(servers: map<int, Address>, sids: seq<int>) returns (lines: seq<string>)
    requires forall k :: 0 <= k < |sids| ==> sids[k] in servers
    ensures lines == ServerInfoLines(servers, sids)
  {
    lines := [];
    for k := 0 to |sids|
      invariant lines == ServerInfoLines(servers, sids[..k])
    {
      ServerInfoLinesSnoc(servers, sids, k);
      lines := lines + [ServerInfoLine(sids[k], servers[sids[k]])];
    }
    assert sids[..|sids|] == sids;
  }

  /** The loop over the sorted neighbours, one concatenated line per neighbour. */
  method WriteLinkLines(id: int, neighbors: map<int, int>, nids: seq<int>) returns (lines: seq<string>)
    requires forall k :: 0 <= k < |nids| ==> nids[k] in neighbors
    ensures lines == LinkLines(id, neighbors, nids)
  {
    lines := [];
    for k := 0 to |nids|
      invariant lines == LinkLines(id, neighbors, nids[..k])
    {
      LinkLinesSnoc(id, neighbors, nids, k);
      lines := lines + [LinkLine(id, nids[k], neighbors[nids[k]])];
    }
    assert nids[..|nids|] == nids;
  }

  /** The file for server `id`, written line by line as `generate_topology_files` does. */
  method WriteTopologyFile(servers: map<int, Address>, topology: Topology, id: int) returns (lines: seq<string>)
    requires id in topology
    ensures lines == TopologyFile(servers, topology[id], id)
  {
    var neighbors := topology[id];
    SortedKeysMembers(servers.Keys);
    SortedKeysMembers(neighbors.Keys);
    var serverLines := WriteServerInfoLines(servers, SortedKeys(servers.Keys));
    var linkLines := WriteLinkLines(id, neighbors, SortedKeys(neighbors.Keys));
    lines := [IntToString(|servers|), IntToString(|neighbors|)] + serverLines + linkLines;
  }

  /** `f"{prefix}{server_id}.txt"`. */
  function FileName(prefix: string, id: int): string {
    prefix + IntToString(id) + ".txt"
  }

  /** Different servers get different file names. */
  lemma FileNameInjective(prefix: string, a: int, b: int)
    requires FileName(prefix, a) == FileName(prefix, b)
    ensures a == b
  {
    var fa, fb := FileName(prefix, a), FileName(prefix, b);
    assert IntToString(a) == fa[|prefix|..|fa| - 4];
    assert IntToString(b) == fb[|prefix|..|fb| - 4];
    ParseIntOfString(a);
    ParseIntOfString(b);
  }

  /** The map with the entry `name(id) := want(id)` for each id of `ids`, later ids last. */
  ghost function Entries<V>(name: int -> string, want: int -> V, ids: seq<int>): map<string, V> {
    if ids == [] then map[]
    else Entries(name, want, ids[..|ids| - 1])[name(ids[|ids| - 1]) := want(ids[|ids| - 1])]
  }

  /** One more id adds its entry last. */
  lemma EntriesSnoc<V>(name: int -> string, want: int -> V, ids: seq<int>, k: int)
    requires 0 <= k < |ids|
    ensures Entries(name, want, ids[..k + 1]) == Entries(name, want, ids[..k])[name(ids[k]) := want(ids[k])]
  {
    assert ids[..k + 1][..k] == ids[..k];
  }

  /**
   * When the ids have different names, `Entries` has one entry per id,
   * holding that id's value, and no other entry.
   */
  lemma {:induction false} EntriesSpec<V>(name: int -> string, want: int -> V, ids: seq<int>)
    requires forall i, j :: 0 <= i < j < |ids| ==> name(ids[i]) != name(ids[j])
    ensures |Entries(name, want, ids)| == |ids|
    ensures forall i :: 0 <= i < |ids| ==> name(ids[i]) in Entries(name, want, ids) && Entries(name, want, ids)[name(ids[i])] == want(ids[i])
    ensures forall n :: n in Entries(name, want, ids) ==> exists i :: 0 <= i < |ids| && n == name(ids[i])
  {
    if ids != [] {
      var init, last := ids[..|ids| - 1], ids[|ids| - 1];
      assert forall i :: 0 <= i < |init| ==> init[i] == ids[i];
      EntriesSpec(name, want, init);
      var before := Entries(name, want, init);
      assert name(last) !in before;
      var after := Entries(name, want, ids);
      assert after == before[name(last) := want(last)];
      forall i | 0 <= i < |ids|
        ensures name(ids[i]) in after && after[name(ids[i])] == want(ids[i])
      {
        if i < |init| {
          assert name(ids[i]) != name(last);
        }
      }
      forall n | n in after
        ensures exists i :: 0 <= i < |ids| && n == name(ids[i])
      {
        if n != name(last) {
          var i :| 0 <= i < |init| && n == name(init[i]);
          assert n == name(ids[i]);
        }
      }
    }
  }

  /** Distinct ids get distinct file names. */
  lemma FileNamesDistinct(prefix: string, ids: seq<int>)
    requires forall i, j :: 0 <= i < j < |ids| ==> ids[i] != ids[j]
    ensures forall i, j :: 0 <= i < j < |ids| ==> FileName(prefix, ids[i]) != FileName(prefix, ids[j])
  {
    forall i, j | 0 <= i < j < |ids| && FileName(prefix, ids[i]) == FileName(prefix, ids[j])
      ensures false
    {
      FileNameInjective(prefix, ids[i], ids[j]);
    }
  }

  ghost function FileNamer(prefix: string): int -> string {
    id => FileName(prefix, id)
  }

  ghost function FileMaker(servers: map<int, Address>, topology: Topology): int -> seq<string> {
    id => if id in topology then TopologyFile(servers, topology[id], id) else []
  }

  /** What `generate_topology_files` writes: each server's file under its name, in ascending id order. */
  ghost function GeneratedFiles(servers: map<int, Address>, topology: Topology, prefix: string): map<string, seq<string>> {
    Entries(FileNamer(prefix), FileMaker(servers, topology), SortedKeys(servers.Keys))
  }

  /**
   * The files of all servers, in the order of their ids: one file per
   * server, named after it and holding its view of the topology, and no
   * other file.
   */
  lemma AllFiles(servers: map<int, Address>, topology: Topology, prefix: string)
    requires servers.Keys <= topology.Keys
    ensures var files := GeneratedFiles(servers, topology, prefix);
      && |files| == |servers|
      && (forall id :: id in servers ==>
        FileName(prefix, id) in files && files[FileName(prefix, id)] == TopologyFile(servers, topology[id], id))
      && (forall name :: name in files ==> exists id :: id in servers && name == FileName(prefix, id))
  {
    var ids := SortedKeys(servers.Keys);
    var name, want := FileNamer(prefix), FileMaker(servers, topology);
    SortedKeysMembers(servers.Keys);
    SortedKeysDistinctAll(servers.Keys);
    FileNamesDistinct(prefix, ids);
    EntriesSpec(name, want, ids);
    var files := Entries(name, want, ids);
    forall id | id in servers
      ensures FileName(prefix, id) in files && files[FileName(prefix, id)] == TopologyFile(servers, topology[id], id)
    {
      var i :| 0 <= i < |ids| && ids[i] == id;
      assert name(ids[i]) in files;
    }
    forall n | n in files
      ensures exists id :: id in servers && n == FileName(prefix, id)
    {
      var i :| 0 <= i < |ids| && n == name(ids[i]);
      assert ids[i] in servers;
    }
  }

  /**
   * `generate_topology_files`: one file per server, named after its id and
   * holding that server's view of the topology.
   */
  method GenerateTopologyFiles(servers: map<int, Address>, topology: Topology, prefix: string)
    returns (files: map<string, seq<string>>)
    requires servers.Keys <= topology.Keys
    ensures files == GeneratedFiles(servers, topology, prefix)
  {
    ghost var name, want := FileNamer(prefix), FileMaker(servers, topology);
    var ids := SortedKeys(servers.Keys);
    SortedKeysWithin(servers.Keys);
    files := map[];
    for k := 0 to |ids|
      invariant files == Entries(name, want, ids[..k])
    {
      var id := ids[k];
      var lines := WriteTopologyFile(servers, topology, id);
      EntriesSnoc(name, want, ids, k);
      files := files[FileName(prefix, id) := lines];
    }
    assert ids[..|ids|] == ids;
  }

  // ================================================================ the local configuration

  const LocalServers: map<int, Address> := map[
    1 := Address("127.0.0.1", 5001),
    2 := Address("127.0.0.1", 5002),
    3 := Address("127.0.0.1", 5003)]

  const LocalTopology: Topology := map[
    1 := map[2 := 5, 3 := 8],
    2 := map[1 := 5, 3 := 3],
    3 := map[1 := 8, 2 := 3]]

  /** The same link cost is listed at both of its ends. */
  predicate Symmetric(topology: Topology) {
    forall a, b :: a in topology && b in topology[a] ==> b in topology && a in topology[b] && topology[b][a] == topology[a][b]
  }

  /**
   * A configuration the generated files describe consistently: every server
   * has a neighbour list, links are symmetric, lead to known servers other
   * than their source, and cost no less than zero.
   */
  predicate WellFormedConfig(servers: map<int, Address>, topology: Topology) {
    && servers.Keys == topology.Keys
    && Symmetric(topology)
    && (forall a :: a in topology ==> a !in topology[a] && topology[a].Keys <= servers.Keys)
    && (forall a, b :: a in topology && b in topology[a] ==> topology[a][b] >= 0)
  }

  /** `get_local_config`: three servers on the loopback address, fully connected. */
  function LocalConfig(): (map<int, Address>, Topology) {
    (LocalServers, LocalTopology)
  }

  /** The local configuration is well formed. */
  lemma LocalConfigWellFormed()
    ensures WellFormedConfig(LocalConfig().0, LocalConfig().1)
  {
    var t := LocalTopology;
    assert t.Keys == {1, 2, 3};
    assert LocalServers.Keys == {1, 2, 3};
    assert t[1].Keys == {2, 3} && t[2].Keys == {1, 3} && t[3].Keys == {1, 2};
    forall a, b | a in t && b in t[a]
      ensures b in t && a in t[b] && t[b][a] == t[a][b] && t[a][b] >= 0
    {
      if a == 1 {
        assert b == 2 || b == 3;
      } else if a == 2 {
        assert b == 1 || b == 3;
      } else {
        assert a == 3 && (b == 1 || b == 2);
      }
    }
  }
}
