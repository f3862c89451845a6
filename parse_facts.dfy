/**
 * What `TopologyParser.parse` promises about the files it accepts and the
 * ones it rejects, stated over the functional model in `TopologyParsing`.
 */
module TopologyFacts {
  import opened Wrappers
  import opened Text
  import opened Router
  import opened Server
  import opened TopologyParsing

  // ================================================================ blank lines

  lemma {:induction false} NonBlankAppend(a: seq<string>, b: seq<string>)
    ensures NonBlank(a + b) == NonBlank(a) + NonBlank(b)
  {
    if a != [] {
      var head := if Strip(a[0]) == [] then [] else [Strip(a[0])];
      assert (a + b)[0] == a[0];
      assert (a + b)[1..] == a[1..] + b;
      NonBlankAppend(a[1..], b);
      assert NonBlank(a + b) == head + NonBlank(a[1..] + b);
      assert NonBlank(a) == head + NonBlank(a[1..]);
    } else {
      assert a + b == b;
    }
  }

  /** Lines that are already stripped and non-empty pass the filter unchanged. */
  lemma {:induction false} NonBlankOfClean(lines: seq<string>)
    requires forall i :: 0 <= i < |lines| ==> lines[i] != [] && Stripped(lines[i])
    ensures NonBlank(lines) == lines
  {
    if lines != [] {
      StripUnchanged(lines[0]);
      NonBlankOfClean(lines[1..]);
    }
  }

  /** Filtering the lines first does not change what `parse` does. */
  lemma BlankLinesIgnored(raw: seq<string>, st: ParserState)
    ensures ParseTopology(NonBlank(raw), st) == ParseTopology(raw, st)
  {
    NonBlankOfClean(NonBlank(raw));
  }

  /** A blank line anywhere in the file changes nothing. */
  lemma BlankLineIgnored(before: seq<string>, blank: string, after: seq<string>, st: ParserState)
    requires IsBlank(blank)
    ensures ParseTopology(before + [blank] + after, st) == ParseTopology(before + after, st)
  {
    StripEmptyIffBlank(blank);
    NonBlankAppend(before + [blank], after);
    NonBlankAppend(before, [blank]);
    NonBlankAppend(before, after);
    assert NonBlank([blank]) == [];
    assert NonBlank(before + [blank] + after) == NonBlank(before + after);
  }

  // ================================================================ loop effects

  /** The server loop only adds to `servers`, and fails only on a bad server line. */
  lemma {:induction false} ServersFromEffect(lines: seq<string>, i: int, end: int, st: ParserState)
    requires 0 <= i && end <= |lines|
    ensures var o := ServersFrom(lines, i, end, st);
      && o.state == st.(servers := o.state.servers)
      && st.servers.Keys <= o.state.servers.Keys
      && (o.failure.Some? ==> o.failure.value in {BadServerEntry, NotAnInteger, BadIp, BadPort})
    decreases end - i
  {
    if i < end {
      var e := ServerEntry(lines[i]);
      if e.Ok? {
        var (id, a) := e.value;
        ServersFromEffect(lines, i + 1, end, st.(servers := st.servers[id := a]));
      }
    }
  }

  /** The errors a single neighbour line can raise while its fields are read. */
  const LineErrors: set<ParseError> := {IndexOutOfRange, EmptyNeighborEntry, BadNeighborEntry, EntryTooShort, NotAnInteger, BadCost}

  /** A neighbour line fails only for reasons of its own. */
  lemma NeighborFieldsErrors(lines: seq<string>, i: int)
    requires i < |lines|
    ensures var f := NeighborFields(lines, i);
      f.Err? ==> f.error in LineErrors
  {
  }

  /** The neighbour loop changes only the neighbours and this server's identity, and fails only on a bad neighbour line. */
  lemma {:induction false} NeighborsLeftEffect(lines: seq<string>, start: int, i: int, end: int, st: ParserState)
    requires end <= |lines|
    ensures var o := NeighborsLeft(lines, start, i, end, st);
      && o.state == st.(neighbors := o.state.neighbors, myServerId := o.state.myServerId,
                        myIp := o.state.myIp, myPort := o.state.myPort)
      && (o.failure.Some? ==> o.failure.value !in {TooShort, NotEnoughServers, NotEnoughNeighbors})
    decreases end - i
  {
    if i < end {
      var ok, id1, id2, cost := NeighborLineStep(lines, start, i, end, st);
      if ok {
        var o := LinkStep(start, i, id1, id2, cost, st);
        if o.failure.None? {
          NeighborsLeftEffect(lines, start, i + 1, end, o.state);
        }
      }
    }
  }

  // ================================================================ count checks

  /**
   * The neighbour section changes only the neighbours and this server's
   * identity, and reports missing lines exactly when fewer than
   * `num_neighbors` lines follow the server lines.
   */
  lemma ParseNeighborsEffect(lines: seq<string>, st: ParserState)
    ensures var o := ParseNeighbors(lines, st);
      && o.state == st.(neighbors := o.state.neighbors, myServerId := o.state.myServerId,
                        myIp := o.state.myIp, myPort := o.state.myPort)
      && o.failure !in {Some(TooShort), Some(NotEnoughServers)}
      && (o.failure == Some(NotEnoughNeighbors) <==> |lines| < 2 + st.numServers + st.numNeighbors)
  {
    var start := 2 + st.numServers;
    if start + st.numNeighbors <= |lines| {
      NeighborsLeftEffect(lines, start, start, start + st.numNeighbors, st);
    }
  }

  /** The server lines are all there: what follows depends on them and on the neighbour count. */
  lemma EntriesPresentFailures(lines: seq<string>, st: ParserState)
    requires 2 + st.numServers <= |lines|
    ensures var o := ParseEntries(lines, st);
      && o.failure !in {Some(TooShort), Some(NotEnoughServers)}
      && (o.failure == Some(NotEnoughNeighbors) <==>
            ServersLeft(lines, 2, 2 + st.numServers, st).failure.None?
            && |lines| < 2 + st.numServers + st.numNeighbors)
  {
    var serverEnd := 2 + st.numServers;
    ServersFromEffect(lines, 2, serverEnd, st);
    var o := ServersFrom(lines, 2, serverEnd, st);
    if o.failure.None? {
      ParseNeighborsEffect(lines, o.state);
    }
  }

  /** After the two counts: only the count checks raise the "not enough" errors. */
  lemma EntriesFailures(lines: seq<string>, st: ParserState)
    ensures var o := ParseEntries(lines, st);
      && o.failure != Some(TooShort)
      && (o.failure == Some(NotEnoughServers) <==> |lines| < 2 + st.numServers)
      && (o.failure == Some(NotEnoughNeighbors) <==>
            && 2 + st.numServers <= |lines|
            && ServersLeft(lines, 2, 2 + st.numServers, st).failure.None?
            && |lines| < 2 + st.numServers + st.numNeighbors)
  {
    if 2 + st.numServers <= |lines| {
      EntriesPresentFailures(lines, st);
    }
  }

  /** `parse` says the file is too short exactly when it has fewer than two non-blank lines. */
  lemma TooShortExactly(raw: seq<string>, st: ParserState)
    ensures ParseTopology(raw, st).failure == Some(TooShort) <==> |NonBlank(raw)| < 2
  {
    var lines := NonBlank(raw);
    if |lines| >= 2 && ParseInt(lines[0]).Some? && ParseInt(lines[1]).Some? {
      EntriesFailures(lines, st.(numServers := ParseInt(lines[0]).value, numNeighbors := ParseInt(lines[1]).value));
    }
  }

  /**
   * Once both counts are read, `parse` reports missing server lines exactly
   * when fewer than `num_servers` lines follow the counts, and missing
   * neighbour lines exactly when the server lines are all there and good but
   * fewer than `num_neighbors` lines follow them.
   */
  lemma NotEnoughExactly(raw: seq<string>, st: ParserState)
    requires var lines := NonBlank(raw);
      |lines| >= 2 && ParseInt(lines[0]).Some? && ParseInt(lines[1]).Some?
    ensures var lines := NonBlank(raw);
      var ns, nn := ParseInt(lines[0]).value, ParseInt(lines[1]).value;
      var o := ParseTopology(raw, st);
      && (o.failure == Some(NotEnoughServers) <==> |lines| < 2 + ns)
      && (o.failure == Some(NotEnoughNeighbors) <==>
            && 2 + ns <= |lines|
            && ServersLeft(lines, 2, 2 + ns, st.(numServers := ns, numNeighbors := nn)).failure.None?
            && |lines| < 2 + ns + nn)
  {
    var lines := NonBlank(raw);
    EntriesFailures(lines, st.(numServers := ParseInt(lines[0]).value, numNeighbors := ParseInt(lines[1]).value));
  }

  // ================================================================ line shapes

  /**
   * A neighbour line is accepted exactly when it is a run of at least three
   * digits; its first digit is the source id, its second the neighbour id,
   * and the remaining digits spell the (finite) cost.
   */
  lemma NeighborFieldsShape(lines: seq<string>, i: int)
    requires -|lines| <= i < |lines|
    ensures var entry := Strip(PyIndex(lines, i));
      var f := NeighborFields(lines, i);
      && (f.Ok? <==> IsNumeral(entry) && |entry| >= 3)
      && (f.Ok? ==> f.value == (DigitValue(entry[0]) as int, DigitValue(entry[1]) as int, Fin(DigitsValue(entry[2..]))))
  {
    var entry := Strip(PyIndex(lines, i));
    StripUnchanged(entry);
    if |entry| >= 3 {
      ParseIntChar(entry[0]);
      ParseIntChar(entry[1]);
      if IsNumeral(entry) {
        SignedDecimalNumeral(entry);
        assert IsNumeral(entry[2..]);
        ParseCostNumeral(entry[2..]);
      } else if ParseInt(entry).Some? && IsDigit(entry[0]) {
        UnsignedParsed(entry);
      }
    }
  }

  /**
   * A server line is accepted exactly when it splits into three tokens: an
   * integer id, a dotted quad of octets in 0..255 and an integer port in
   * 1..65535. A token holds no whitespace, so the newline that `validate_ip`
   * would tolerate never reaches it.
   */
  lemma ServerEntryShape(line: string)
    ensures var parts := Words(line);
      var e := ServerEntry(line);
      && (e.Ok? <==>
            && |parts| == 3
            && SignedDecimal(parts[0]).Some?
            && IsDottedQuad(parts[1])
            && SignedDecimal(parts[2]).Some? && ValidatePort(SignedDecimal(parts[2]).value))
      && (e.Ok? ==> IsDottedQuad(e.value.1.ip) && ValidatePort(e.value.1.port))
  {
    var parts := Words(line);
    if |parts| == 3 {
      assert IsWord(parts[1]);
      assert DropFinalNewline(parts[1]) == parts[1];
      ValidateIpIsDottedQuad(parts[1]);
    }
  }

  // ================================================================ accepted files

  /** Every listed server has a dotted-quad address and a valid port. */
  predicate ServersValid(servers: map<int, Address>) {
    forall id :: id in servers ==> IsDottedQuad(servers[id].ip) && ValidatePort(servers[id].port)
  }

  /**
   * What an accepted file guarantees about the fields: listed servers are
   * well formed; every neighbour is a listed server other than this one,
   * reached at a finite cost; and once this server's id is known it is
   * listed, and its address and port are the listed ones.
   */
  predicate Consistent(st: ParserState) {
    && ServersValid(st.servers)
    && (forall n :: n in st.neighbors ==> n in st.servers && st.myServerId != Some(n) && st.neighbors[n].Fin?)
    && (st.myServerId.Some? ==>
          && st.myServerId.value in st.servers
          && st.myIp == Some(st.servers[st.myServerId.value].ip)
          && st.myPort == Some(st.servers[st.myServerId.value].port))
  }

  /** An accepted neighbour line has a finite cost. */
  lemma NeighborFieldsFinite(lines: seq<string>, i: int)
    requires i < |lines|
    ensures var f := NeighborFields(lines, i); f.Ok? ==> f.value.2.Fin?
  {
    if -|lines| <= i {
      NeighborFieldsShape(lines, i);
    }
  }

  /** The server loop stores only well-formed servers. */
  lemma {:induction false} ServersFromValid(lines: seq<string>, i: int, end: int, st: ParserState)
    requires 0 <= i && end <= |lines|
    requires ServersValid(st.servers)
    ensures ServersValid(ServersFrom(lines, i, end, st).state.servers)
    decreases end - i
  {
    if i < end {
      var e := ServerEntry(lines[i]);
      ServerEntryShape(lines[i]);
      if e.Ok? {
        var (id, a) := e.value;
        ServersFromValid(lines, i + 1, end, st.(servers := st.servers[id := a]));
      }
    }
  }

  /**
   * One step of the neighbour loop, with the line's fields read off: either
   * the line is rejected, or its fields (with a finite cost) go through the
   * checks of `LinkStep` and the loop goes on from the next line.
   */
  lemma NeighborLineStep(lines: seq<string>, start: int, i: int, end: int, st: ParserState)
    returns (ok: bool, id1: int, id2: int, cost: Cost)
    requires i < end <= |lines|
    ensures var r := NeighborsLeft(lines, start, i, end, st);
      && (!ok ==> r.state == st && r.failure.Some? && r.failure.value in LineErrors)
      && (ok ==> cost.Fin?)
      && (ok ==> r == (var o := LinkStep(start, i, id1, id2, cost, st);
                       if o.failure.Some? then o else NeighborsLeft(lines, start, i + 1, end, o.state)))
  {
    NeighborFieldsFinite(lines, i);
    NeighborFieldsErrors(lines, i);
    var f := NeighborFields(lines, i);
    ok := f.Ok?;
    if ok {
      id1, id2, cost := f.value.0, f.value.1, f.value.2;
    } else {
      id1, id2, cost := 0, 0, Inf;
    }
    assert NeighborsLeft(lines, start, i, end, st) == NeighborLine(lines, start, i, end, st);
  }

  /**
   * The checks on one neighbour line with fields `id1 id2 cost`. The first
   * line fixes this server's id to its source, and its address when that id
   * is listed; the line then passes exactly when its source is this server
   * (listed, for the first line), its neighbour is listed and is not this
   * server. A line that passes records exactly its neighbour's cost.
   */
  lemma LinkStepChecks(start: int, i: int, id1: int, id2: int, cost: Cost, st: ParserState)
    ensures var o := LinkStep(start, i, id1, id2, cost, st);
      && (i == start ==> o.state.myServerId == Some(id1))
      && (i == start && id1 in st.servers ==>
            o.state.myIp == Some(st.servers[id1].ip) && o.state.myPort == Some(st.servers[id1].port))
      && (i != start ==> o.state.myServerId == st.myServerId)
      && (o.failure.None? <==>
            && (i == start ==> id1 in st.servers)
            && (i != start ==> st.myServerId == Some(id1))
            && id2 in st.servers
            && id2 != id1)
      && o.state.servers == st.servers
      && (o.failure.None? ==> o.state.neighbors == st.neighbors[id2 := cost])
      && (o.failure.Some? ==> o.state.neighbors == st.neighbors)
  {
  }

  /** A successful check of one neighbour line keeps the fields consistent and records the neighbour. */
  lemma LinkStepConsistent(start: int, i: int, id1: int, id2: int, cost: Cost, st: ParserState)
    requires cost.Fin? && start <= i && Consistent(st)
    requires i == start ==> st.neighbors == map[]
    requires i > start ==> st.myServerId.Some?
    ensures var o := LinkStep(start, i, id1, id2, cost, st);
      o.failure.None? ==>
        && Consistent(o.state)
        && o.state.myServerId == Some(id1)
        && o.state.neighbors == st.neighbors[id2 := cost]
        && o.state.servers == st.servers
  {
  }

  /**
   * The neighbour loop keeps the fields consistent. Its first line fixes this
   * server's id, which is why no neighbour may be recorded before it.
   */
  lemma {:induction false} NeighborsLeftConsistent(lines: seq<string>, start: int, i: int, end: int, st: ParserState)
    requires end <= |lines| && start <= i
    requires Consistent(st)
    requires i == start ==> st.neighbors == map[]
    requires i > start ==> st.myServerId.Some?
    ensures var o := NeighborsLeft(lines, start, i, end, st);
      && (i >= end ==> o == Outcome(st, None))
      && (o.failure.None? ==>
            && Consistent(o.state)
            && o.state.servers == st.servers
            && st.neighbors.Keys <= o.state.neighbors.Keys
            && (i > start ==> o.state.myServerId == st.myServerId)
            && (i < end ==> o.state.myServerId.Some? && o.state.neighbors != map[]))
    decreases end - i
  {
    if i < end {
      var ok, id1, id2, cost := NeighborLineStep(lines, start, i, end, st);
      if ok {
        LinkStepConsistent(start, i, id1, id2, cost, st);
        var o := LinkStep(start, i, id1, id2, cost, st);
        if o.failure.None? {
          NeighborsLeftConsistent(lines, start, i + 1, end, o.state);
        }
      }
    }
  }

  /**
   * The neighbour section, read into consistent fields that hold no
   * neighbours yet, keeps them consistent; it names this server and a
   * neighbour exactly when the neighbour count is positive.
   */
  lemma ParseNeighborsConsistent(lines: seq<string>, st: ParserState)
    requires Consistent(st) && st.neighbors == map[]
    ensures var o := ParseNeighbors(lines, st);
      o.failure.None? ==>
        && Consistent(o.state)
        && o.state.servers == st.servers
        && (st.numNeighbors > 0 ==> o.state.myServerId.Some? && o.state.neighbors != map[])
        && (st.numNeighbors <= 0 ==> o.state == st)
  {
    var start := 2 + st.numServers;
    if start + st.numNeighbors <= |lines| {
      NeighborsLeftConsistent(lines, start, start, start + st.numNeighbors, st);
    }
  }

  /** The server and neighbour sections, read into fields that hold no servers, neighbours or identity yet. */
  lemma EntriesConsistent(lines: seq<string>, st: ParserState)
    requires st.servers == map[] && st.neighbors == map[]
    requires st.myServerId.None? && st.myIp.None? && st.myPort.None?
    ensures var o := ParseEntries(lines, st);
      o.failure.None? ==>
        && Consistent(o.state)
        && o.state.numNeighbors == st.numNeighbors
        && (st.numNeighbors > 0 ==> o.state.myServerId.Some? && o.state.neighbors != map[])
        && (st.numNeighbors <= 0 ==> o.state.myServerId.None? && o.state.neighbors == map[])
  {
    var serverEnd := 2 + st.numServers;
    if serverEnd <= |lines| {
      ServersFromEffect(lines, 2, serverEnd, st);
      ServersFromValid(lines, 2, serverEnd, st);
      var o := ServersFrom(lines, 2, serverEnd, st);
      if o.failure.None? {
        ParseNeighborsConsistent(lines, o.state);
        ParseNeighborsEffect(lines, o.state);
      }
    }
  }

  /**
   * A file accepted by a fresh parser leaves the fields consistent. With a
   * positive neighbour count it names this server (the source of the first
   * neighbour line) and at least one neighbour; otherwise neither.
   */
  lemma AcceptedConsistent(raw: seq<string>)
    ensures var o := ParseTopology(raw, Fresh);
      o.failure.None? ==>
        && Consistent(o.state)
        && (o.state.numNeighbors > 0 ==> o.state.myServerId.Some? && o.state.neighbors != map[])
        && (o.state.numNeighbors <= 0 ==> o.state.myServerId.None? && o.state.neighbors == map[])
  {
    var lines := NonBlank(raw);
    if |lines| >= 2 && ParseInt(lines[0]).Some? && ParseInt(lines[1]).Some? {
      var st := Fresh.(numServers := ParseInt(lines[0]).value, numNeighbors := ParseInt(lines[1]).value);
      EntriesConsistent(lines, st);
    }
  }

  // ================================================================ trailing lines

  /** The two sections never change the counts. */
  lemma EntriesKeepCounts(lines: seq<string>, st: ParserState)
    ensures var o := ParseEntries(lines, st);
      o.state.numServers == st.numServers && o.state.numNeighbors == st.numNeighbors
  {
    var serverEnd := 2 + st.numServers;
    if serverEnd <= |lines| {
      ServersFromEffect(lines, 2, serverEnd, st);
      var o := ServersFrom(lines, 2, serverEnd, st);
      if o.failure.None? {
        ParseNeighborsEffect(lines, o.state);
      }
    }
  }

  /** The server loop reads only the lines before `end`. */
  lemma {:induction false} ServersLeftPrefix(lines: seq<string>, extra: seq<string>, i: int, end: int, st: ParserState)
    requires 0 <= i && end <= |lines|
    ensures ServersLeft(lines + extra, i, end, st) == ServersLeft(lines, i, end, st)
    decreases end - i
  {
    if i < end {
      assert (lines + extra)[i] == lines[i];
      assert ServersLeft(lines + extra, i, end, st) == ServerLine(lines + extra, i, end, st);
      assert ServersLeft(lines, i, end, st) == ServerLine(lines, i, end, st);
      var e := ServerEntry(lines[i]);
      if e.Ok? {
        var (id, a) := e.value;
        ServersLeftPrefix(lines, extra, i + 1, end, st.(servers := st.servers[id := a]));
      }
    }
  }

  /** A neighbour line at a non-negative index reads the same with lines appended. */
  lemma NeighborFieldsPrefix(lines: seq<string>, extra: seq<string>, i: int)
    requires 0 <= i < |lines|
    ensures NeighborFields(lines + extra, i) == NeighborFields(lines, i)
  {
    assert PyIndex(lines + extra, i) == PyIndex(lines, i);
  }

  /**
   * One neighbour line at a non-negative index, read with or without lines
   * appended: the same outcome, or the same next state when the loop goes on.
   */
  lemma NeighborLinePrefixStep(lines: seq<string>, extra: seq<string>, start: int, i: int, end: int, st: ParserState)
    returns (more: bool, next: ParserState)
    requires 0 <= i < end <= |lines|
    ensures !more ==> NeighborsLeft(lines + extra, start, i, end, st) == NeighborsLeft(lines, start, i, end, st)
    ensures more ==> NeighborsLeft(lines + extra, start, i, end, st) == NeighborsLeft(lines + extra, start, i + 1, end, next)
    ensures more ==> NeighborsLeft(lines, start, i, end, st) == NeighborsLeft(lines, start, i + 1, end, next)
  {
    NeighborFieldsPrefix(lines, extra, i);
    assert NeighborsLeft(lines + extra, start, i, end, st) == NeighborLine(lines + extra, start, i, end, st);
    assert NeighborsLeft(lines, start, i, end, st) == NeighborLine(lines, start, i, end, st);
    var f := NeighborFields(lines, i);
    if f.Ok? {
      var o := LinkStep(start, i, f.value.0, f.value.1, f.value.2, st);
      more, next := o.failure.None?, o.state;
    } else {
      more, next := false, st;
    }
  }

  /** The neighbour loop, at non-negative indices, reads only the lines before `end`. */
  lemma {:induction false} NeighborsLeftPrefix(lines: seq<string>, extra: seq<string>, start: int, i: int, end: int, st: ParserState)
    requires 0 <= i && end <= |lines|
    ensures NeighborsLeft(lines + extra, start, i, end, st) == NeighborsLeft(lines, start, i, end, st)
    decreases end - i
  {
    if i < end {
      var more, next := NeighborLinePrefixStep(lines, extra, start, i, end, st);
      if more {
        NeighborsLeftPrefix(lines, extra, start, i + 1, end, next);
      }
    }
  }

  /** The neighbour section, when complete, is read the same with lines appended. */
  lemma NeighborsPrefix(lines: seq<string>, extra: seq<string>, st: ParserState)
    requires st.numServers >= 0
    requires 2 + st.numServers + st.numNeighbors <= |lines|
    ensures ParseNeighbors(lines + extra, st) == ParseNeighbors(lines, st)
  {
    var start := 2 + st.numServers;
    NeighborsLeftPrefix(lines, extra, start, start, start + st.numNeighbors, st);
  }

  /** Once the sections are complete, appended lines are not read. */
  lemma EntriesPrefix(lines: seq<string>, extra: seq<string>, st: ParserState)
    requires st.numServers >= 0
    requires 2 + st.numServers <= |lines| && 2 + st.numServers + st.numNeighbors <= |lines|
    ensures ParseEntries(lines + extra, st) == ParseEntries(lines, st)
  {
    var serverEnd := 2 + st.numServers;
    ServersLeftPrefix(lines, extra, 2, serverEnd, st);
    ServersFromEffect(lines, 2, serverEnd, st);
    NeighborsPrefix(lines, extra, ServersFrom(lines, 2, serverEnd, st).state);
  }

  /**
   * Lines after the last neighbour line are ignored: a file that `parse`
   * accepts (with a non-negative server count) is read the same with any
   * lines appended.
   */
  lemma TrailingLinesIgnored(raw: seq<string>, extra: seq<string>, st: ParserState)
    requires ParseTopology(raw, st).failure.None?
    requires ParseTopology(raw, st).state.numServers >= 0
    ensures ParseTopology(raw + extra, st) == ParseTopology(raw, st)
  {
    NonBlankAppend(raw, extra);
    var lines := NonBlank(raw);
    var st1 := st.(numServers := ParseInt(lines[0]).value, numNeighbors := ParseInt(lines[1]).value);
    EntriesKeepCounts(lines, st1);
    EntriesFailures(lines, st1);
    EntriesPrefix(lines, NonBlank(extra), st1);
    assert (lines + NonBlank(extra))[0] == lines[0] && (lines + NonBlank(extra))[1] == lines[1];
  }
}
