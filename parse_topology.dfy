/**
 * The per-node topology file: its validators for costs, IPv4 addresses and
 * ports, and `TopologyParser`, which walks the file's non-blank lines and
 * fills in the server list, the neighbour costs and this server's identity.
 */
module TopologyParsing {
  import opened Wrappers
  import opened Text
  import opened Router
  import opened Server

  // ================================================================ costs

  /**
   * The module-level `parse_cost`: after stripping and lower-casing, `inf`,
   * `infinity` and `∞` are infinity; otherwise `float()` must accept the
   * text and the value must not be below zero. `None` is the `ValueError`.
   */
  function ParseCost(text: string): Option<Cost> {
    CostWord(Lower(Strip(text)))
  }

  /** `parse_cost` after its strip and lower-case step. */
  function CostWord(t: string): Option<Cost> {
    if t == "inf" || t == "infinity" || t == "∞" then Some(Inf)
    else match ParseFloat(t)
      case None => None
      case Some(f) => if f.IsNegative() then None else Some(CostOfFloat(f))
  }

  lemma LowerNumeral(s: string)
    requires IsNumeral(s)
    ensures Lower(s) == s
  {
  }

  lemma CostWordNumeral(s: string)
    requires IsNumeral(s)
    ensures CostWord(s) == Some(Fin(DigitsValue(s)))
  {
    assert IsDigit(s[0]);
    ParseFloatNumeral(s);
  }

  /** A string of digits is the cost it spells. */
  lemma ParseCostNumeral(s: string)
    requires IsNumeral(s)
    ensures ParseCost(s) == Some(Fin(DigitsValue(s)))
  {
    StripNumeral(s);
    LowerNumeral(s);
    CostWordNumeral(s);
  }

  lemma LowerNegative(m: string)
    requires IsNumeral(m)
    ensures Lower("-" + m) == "-" + m
  {
    var t := "-" + m;
    forall i | 0 <= i < |t|
      ensures Lower(t)[i] == t[i]
    {
      if i > 0 {
        assert t[i] == m[i - 1];
      }
    }
  }

  lemma FloatLiteralNegative(m: string)
    requires IsNumeral(m)
    ensures FloatLiteral("-" + m) == Some(Number(true, DigitsValue(m)))
  {
    var t := "-" + m;
    assert t[1..] == m;
    assert IsDigit(m[0]);
    assert Lower(m) != "inf" && Lower(m) != "infinity" by {
      assert Lower(m)[0] == m[0];
    }
  }

  lemma ParseFloatNegative(m: string)
    requires IsNumeral(m)
    ensures ParseFloat("-" + m) == Some(Number(true, DigitsValue(m)))
  {
    StripNegativeNumeral(m);
    FloatLiteralNegative(m);
  }

  lemma CostWordNegative(m: string)
    requires IsNumeral(m)
    ensures CostWord("-" + m) == if DigitsValue(m) == 0 then Some(Fin(0)) else None
  {
    var t := "-" + m;
    assert t != "inf" && t != "infinity" && t != "∞" by {
      assert t[0] == '-';
    }
    ParseFloatNegative(m);
  }

  /** A minus sign before a non-zero number is rejected; `-0` is a zero cost. */
  lemma ParseCostNegative(m: string)
    requires IsNumeral(m)
    ensures ParseCost("-" + m) == if DigitsValue(m) == 0 then Some(Fin(0)) else None
  {
    StripNegativeNumeral(m);
    LowerNegative(m);
    CostWordNegative(m);
  }

  lemma InfinityWord(w: string)
    requires IsWord(w) && Lower(w) in {"inf", "infinity", "∞"}
    ensures ParseCost(w) == Some(Inf)
  {
    assert !IsSpace(w[0]) && !IsSpace(w[|w| - 1]);
    StripUnchanged(w);
  }

  lemma ParseCostInfinityWord()
    ensures ParseCost("Infinity") == Some(Inf)
  {
    var w := "Infinity";
    forall i | 0 <= i < |w|
      ensures Lower(w)[i] == "infinity"[i] && !IsSpace(w[i])
    {
    }
    assert Lower(w) == "infinity";
    InfinityWord(w);
  }

  lemma ParseCostInfWord()
    ensures ParseCost("inf") == Some(Inf)
  {
    assert Lower("inf") == "inf";
    InfinityWord("inf");
  }

  lemma ParseCostInfUpper()
    ensures ParseCost("INF") == Some(Inf)
  {
    assert Lower("INF") == "inf";
    InfinityWord("INF");
  }

  lemma ParseCostInfinitySign()
    ensures ParseCost("∞") == Some(Inf)
  {
    assert Lower("∞") == "∞";
    InfinityWord("∞");
  }

  /** The three spellings of infinity, in any letter case. */
  lemma ParseCostInfinity()
    ensures ParseCost("inf") == Some(Inf)
    ensures ParseCost("INF") == Some(Inf)
    ensures ParseCost("Infinity") == Some(Inf)
    ensures ParseCost("∞") == Some(Inf)
  {
    ParseCostInfWord();
    ParseCostInfUpper();
    ParseCostInfinityWord();
    ParseCostInfinitySign();
  }

  // ================================================================ IPv4 addresses

  /** The length of the run of ASCII digits that starts `s`. */
  function DigitRun(s: string): (n: nat)
    ensures n <= |s|
    decreases |s|
  {
    if s == [] || !IsDigit(s[0]) then 0 else 1 + DigitRun(s[1..])
  }

  /** The run is all digits, and what follows it (if anything) is not one. */
  lemma {:induction false} DigitRunEnds(s: string)
    ensures forall i :: 0 <= i < DigitRun(s) ==> IsDigit(s[i])
    ensures DigitRun(s) == |s| || !IsDigit(s[DigitRun(s)])
    decreases |s|
  {
    if s != [] && IsDigit(s[0]) {
      DigitRunEnds(s[1..]);
      assert forall i :: 0 < i < |s| ==> s[1..][i - 1] == s[i];
    }
  }

  /** `(\d{1,3}\.){k}\d{1,3}` matched against the whole of `t`. */
  predicate OctetGroups(t: string, k: nat)
    decreases k
  {
    var n := DigitRun(t);
    1 <= n <= 3 &&
    if k == 0 then n == |t|
    else n < |t| && t[n] == '.' && OctetGroups(t[n + 1..], k - 1)
  }

  /** Python's `$` without MULTILINE also matches just before one final newline. */
  function DropFinalNewline(s: string): string {
    if s != [] && s[|s| - 1] == '\n' then s[..|s| - 1] else s
  }

  /** The index of the first `sep` in `s`, or `|s|`. */
  function RunBefore(s: string, sep: char): (n: nat)
    ensures n <= |s|
    decreases |s|
  {
    if s == [] || s[0] == sep then 0 else 1 + RunBefore(s[1..], sep)
  }

  /** No separator comes before the index, and one sits at it unless it is the end. */
  lemma {:induction false} RunBeforeEnds(s: string, sep: char)
    ensures forall i :: 0 <= i < RunBefore(s, sep) ==> s[i] != sep
    ensures RunBefore(s, sep) == |s| || s[RunBefore(s, sep)] == sep
    decreases |s|
  {
    if s != [] && s[0] != sep {
      RunBeforeEnds(s[1..], sep);
      assert forall i :: 0 < i < |s| ==> s[1..][i - 1] == s[i];
    }
  }

  /** Python's `s.split(sep)`: the pieces between separators, empty ones included. */
  function SplitOn(s: string, sep: char): (parts: seq<string>)
    ensures |parts| >= 1
    decreases |s|
  {
    var n := RunBefore(s, sep);
    if n == |s| then [s] else [s[..n]] + SplitOn(s[n + 1..], sep)
  }

  /** `0 <= int(part) <= 255`, with a `ValueError` counting as false. */
  predicate OctetInRange(part: string) {
    ParseInt(part).Some? && 0 <= ParseInt(part).value <= 255
  }

  /** `validate_ip`: the dotted-quad pattern, then every dot-separated part in 0..255. */
  predicate ValidateIp(s: string) {
    OctetGroups(DropFinalNewline(s), 3) && OctetsInRange(SplitOn(s, '.'))
  }

  /** The loop over the parts, which stops at the first one out of range. */
  predicate OctetsInRange(parts: seq<string>) {
    parts == [] || (OctetInRange(parts[0]) && OctetsInRange(parts[1..]))
  }

  lemma {:induction false} OctetsInRangeEach(parts: seq<string>)
    ensures OctetsInRange(parts) <==> forall i :: 0 <= i < |parts| ==> OctetInRange(parts[i])
  {
    if parts != [] {
      OctetsInRangeEach(parts[1..]);
      assert forall i :: 0 < i < |parts| ==> parts[1..][i - 1] == parts[i];
    }
  }

  /** One to three ASCII digits. */
  predicate GroupShaped(p: string) {
    IsNumeral(p) && |p| <= 3
  }

  /** A dotted quad: exactly four dot-separated groups of one to three digits, each at most 255. */
  predicate IsDottedQuad(t: string) {
    var parts := SplitOn(t, '.');
    |parts| == 4 && AllShaped(parts) && forall i :: 0 <= i < 4 ==> DigitsValue(parts[i]) <= 255
  }

  /** The pattern's first `\d{1,3}` ends exactly where the first dot-separated part does. */
  lemma FirstGroup(t: string)
    ensures var n, m := DigitRun(t), RunBefore(t, '.');
      && n <= m
      && (GroupShaped(t[..m]) <==> n == m && 1 <= n <= 3)
  {
    var n, m := DigitRun(t), RunBefore(t, '.');
    DigitRunEnds(t);
    RunBeforeEnds(t, '.');
    assert forall i :: 0 <= i < m ==> t[..m][i] == t[i];
    assert n < m ==> t[..m][n] == t[n];
  }

  predicate AllShaped(parts: seq<string>) {
    forall i :: 0 <= i < |parts| ==> GroupShaped(parts[i])
  }

  lemma AllShapedCons(p: string, rest: seq<string>)
    ensures AllShaped([p] + rest) <==> GroupShaped(p) && AllShaped(rest)
  {
    var parts := [p] + rest;
    assert parts[0] == p;
    forall i | 0 <= i < |rest|
      ensures parts[i + 1] == rest[i]
    {
    }
  }

  /** Text without a dot is one group or nothing the pattern accepts. */
  lemma OctetGroupsNoDot(t: string, k: nat)
    requires RunBefore(t, '.') == |t|
    ensures OctetGroups(t, k) <==> k == 0 && GroupShaped(t)
    ensures GroupsAreParts(t, k)
  {
    FirstGroup(t);
    RunBeforeEnds(t, '.');
    assert t[..|t|] == t;
    assert SplitOn(t, '.') == [t];
    assert [t][0] == t;
  }

  /** Text with a dot: the pattern reads the part before it as a group, then the rest. */
  lemma OctetGroupsDot(t: string, k: nat)
    requires RunBefore(t, '.') < |t|
    ensures var m := RunBefore(t, '.');
      OctetGroups(t, k) <==> k > 0 && GroupShaped(t[..m]) && OctetGroups(t[m + 1..], k - 1)
  {
    var n, m := DigitRun(t), RunBefore(t, '.');
    FirstGroup(t);
    RunBeforeEnds(t, '.');
  }

  /** The claim of `OctetGroupsSplit` for one text and group count. */
  predicate GroupsAreParts(t: string, k: nat) {
    var parts := SplitOn(t, '.');
    OctetGroups(t, k) <==> |parts| == k + 1 && AllShaped(parts)
  }

  /** One dot: the claim for the text after it gives the claim for the whole. */
  lemma GroupsArePartsDot(t: string, k: nat)
    requires RunBefore(t, '.') < |t|
    requires k > 0 ==> GroupsAreParts(t[RunBefore(t, '.') + 1..], k - 1)
    ensures GroupsAreParts(t, k)
  {
    var p, tail := t[..RunBefore(t, '.')], t[RunBefore(t, '.') + 1..];
    var rest := SplitOn(tail, '.');
    assert SplitOn(t, '.') == [p] + rest;
    AllShapedCons(p, rest);
    OctetGroupsDot(t, k);
    if k == 0 {
      assert |[p] + rest| != 1;
    } else {
      assert OctetGroups(tail, k - 1) <==> |rest| == k && AllShaped(rest);
    }
  }

  /** The groups the pattern reads are exactly the dot-separated parts. */
  lemma {:induction false} OctetGroupsSplit(t: string, k: nat)
    ensures GroupsAreParts(t, k)
    decreases k
  {
    var m := RunBefore(t, '.');
    if m == |t| {
      OctetGroupsNoDot(t, k);
    } else {
      if k > 0 {
        OctetGroupsSplit(t[m + 1..], k - 1);
      }
      GroupsArePartsDot(t, k);
    }
  }

  lemma RunBeforeAppend(t: string, c: char, sep: char)
    requires c != sep
    ensures RunBefore(t + [c], sep) == if RunBefore(t, sep) == |t| then |t| + 1 else RunBefore(t, sep)
  {
    var s := t + [c];
    var n := RunBefore(t, sep);
    var m := RunBefore(s, sep);
    RunBeforeEnds(t, sep);
    RunBeforeEnds(s, sep);
    assert forall i :: 0 <= i < |t| ==> s[i] == t[i];
    assert s[|t|] == c;
    assert m < |t| ==> t[m] == sep;
    assert n < |t| ==> s[n] == sep;
  }

  /** Splitting after appending one character that is not the separator extends the last part. */
  lemma {:induction false} SplitOnAppend(t: string, c: char, sep: char)
    requires c != sep
    ensures var before := SplitOn(t, sep);
      SplitOn(t + [c], sep) == before[..|before| - 1] + [before[|before| - 1] + [c]]
    decreases |t|
  {
    var s := t + [c];
    var n := RunBefore(t, sep);
    RunBeforeAppend(t, c, sep);
    if n == |t| {
      assert SplitOn(s, sep) == [s];
      assert SplitOn(t, sep) == [t];
    } else {
      var r := SplitOn(t[n + 1..], sep);
      assert SplitOn(t, sep) == [t[..n]] + r;
      assert s[..n] == t[..n];
      assert s[n + 1..] == t[n + 1..] + [c];
      SplitOnAppend(t[n + 1..], c, sep);
      assert SplitOn(s, sep) == [t[..n]] + (r[..|r| - 1] + [r[|r| - 1] + [c]]);
      assert ([t[..n]] + r)[..|r|] == [t[..n]] + r[..|r| - 1];
    }
  }

  lemma OctetOfNumeral(part: string)
    requires IsNumeral(part)
    ensures OctetInRange(part) <==> DigitsValue(part) <= 255
    ensures OctetInRange(part + "\n") <==> DigitsValue(part) <= 255
  {
    ParseIntNumeral(part);
    ParseIntNumeralNewline(part);
  }

  /** Without a final newline: the pattern and the range check together are the dotted quads. */
  lemma ValidateIpPlain(t: string)
    requires DropFinalNewline(t) == t
    ensures ValidateIp(t) <==> IsDottedQuad(t)
  {
    OctetGroupsSplit(t, 3);
    var parts := SplitOn(t, '.');
    OctetsInRangeEach(parts);
    if OctetGroups(t, 3) {
      forall i | 0 <= i < 4
        ensures OctetInRange(parts[i]) <==> DigitsValue(parts[i]) <= 255
      {
        OctetOfNumeral(parts[i]);
      }
    }
  }

  /** The range check on four well-shaped parts, the last of which carries a final newline. */
  lemma NewlinePartsInRange(tparts: seq<string>, sparts: seq<string>)
    requires |tparts| == 4 && AllShaped(tparts)
    requires sparts == tparts[..|tparts| - 1] + [tparts[|tparts| - 1] + "\n"]
    ensures OctetsInRange(sparts) <==> forall i :: 0 <= i < 4 ==> DigitsValue(tparts[i]) <= 255
  {
    OctetsInRangeEach(sparts);
    forall i | 0 <= i < 4
      ensures OctetInRange(sparts[i]) <==> DigitsValue(tparts[i]) <= 255
    {
      assert GroupShaped(tparts[i]);
      OctetOfNumeral(tparts[i]);
      if i < 3 {
        assert sparts[i] == tparts[i];
      } else {
        assert sparts[i] == tparts[3] + "\n";
      }
    }
  }

  /** The range check on the parts of a well-shaped quad with a final newline, which the last part carries. */
  lemma NewlineOctetsInRange(t: string)
    requires |SplitOn(t, '.')| == 4 && AllShaped(SplitOn(t, '.'))
    ensures OctetsInRange(SplitOn(t + "\n", '.')) <==> forall i :: 0 <= i < 4 ==> DigitsValue(SplitOn(t, '.')[i]) <= 255
  {
    SplitOnAppend(t, '\n', '.');
    NewlinePartsInRange(SplitOn(t, '.'), SplitOn(t + "\n", '.'));
  }

  /** With a final newline: the last part carries it, and `int()` ignores it. */
  lemma ValidateIpNewline(t: string)
    ensures ValidateIp(t + "\n") <==> IsDottedQuad(t)
  {
    assert DropFinalNewline(t + "\n") == t;
    OctetGroupsSplit(t, 3);
    if OctetGroups(t, 3) {
      NewlineOctetsInRange(t);
    }
  }

  /** `validate_ip` accepts exactly the dotted quads, optionally followed by one newline. */
  lemma ValidateIpIsDottedQuad(s: string)
    ensures ValidateIp(s) <==> IsDottedQuad(DropFinalNewline(s))
  {
    if s != [] && s[|s| - 1] == '\n' {
      assert s == s[..|s| - 1] + "\n";
      ValidateIpNewline(s[..|s| - 1]);
    } else {
      ValidateIpPlain(s);
    }
  }

  /** `validate_port`: an integer in 1..65535. */
  predicate ValidatePort(port: int) {
    1 <= port <= 65535
  }

  // ================================================================ the parser

  /** Why `parse` raised `ValueError`; the message text is not modelled. */
  datatype ParseError =
    | TooShort             // fewer than two non-blank lines
    | NotAnInteger         // an `int()` conversion failed
    | NotEnoughServers
    | BadServerEntry       // a server line without exactly three tokens
    | BadIp
    | BadPort
    | NotEnoughNeighbors
    | IndexOutOfRange      // a negative line index below `-len(lines)`
    | EmptyNeighborEntry
    | BadNeighborEntry     // a neighbour line that `int()` rejects
    | EntryTooShort        // a neighbour line shorter than three characters
    | BadCost
    | MyIdNotListed
    | WrongSource
    | NeighborNotListed
    | SelfLink

  /** The parser's fields as a value; `parse` returns exactly these. */
  datatype ParserState = ParserState(
    numServers: int,
    numNeighbors: int,
    servers: map<int, Address>,
    neighbors: map<int, Cost>,
    myServerId: Option<int>,
    myIp: Option<string>,
    myPort: Option<int>)

  /** The fields as `__init__` sets them. */
  const Fresh := ParserState(0, 0, map[], map[], None, None, None)

  /** The fields after a call to `parse`, and the error it raised, if any. */
  datatype Outcome = Outcome(state: ParserState, failure: Option<ParseError>)

  predicate Stripped(s: string) {
    s == [] || (!IsSpace(s[0]) && !IsSpace(s[|s| - 1]))
  }

  /** `[line.strip() for line in f if line.strip()]`. */
  function NonBlank(raw: seq<string>): (lines: seq<string>)
    ensures |lines| <= |raw|
    ensures forall i :: 0 <= i < |lines| ==> lines[i] != [] && Stripped(lines[i])
  {
    if raw == [] then []
    else (if Strip(raw[0]) == [] then [] else [Strip(raw[0])]) + NonBlank(raw[1..])
  }

  /** Python's `lines[i]`: a negative index counts from the end. */
  function PyIndex(lines: seq<string>, i: int): string
    requires -|lines| <= i < |lines|
  {
    if i < 0 then lines[|lines| + i] else lines[i]
  }

  /**
   * One server line: `id ip port`, with a valid address and port. The tokens
   * of `split()` carry no whitespace, so `int()` reads them without its strip
   * step (`ParseIntOfWord`).
   */
  function ServerEntry(line: string): Result<(int, Address), ParseError> {
    var parts := Words(line);
    if |parts| != 3 then Err(BadServerEntry)
    else
      var id, port := SignedDecimal(parts[0]), SignedDecimal(parts[2]);
      if id.None? || port.None? then Err(NotAnInteger)
      else if !ValidateIp(parts[1]) then Err(BadIp)
      else if !ValidatePort(port.value) then Err(BadPort)
      else Ok((id.value, Address(parts[1], port.value)))
  }

  /** The server loop from line `i` on: each line is stored under its id, the first bad one stops it. */
  function ServersFrom(lines: seq<string>, i: int, end: int, st: ParserState): Outcome
    requires 0 <= i && end <= |lines|
    decreases end - i, 1
  {
    if i >= end then Outcome(st, None) else ServerLine(lines, i, end, st)
  }

  /**
   * The server loop from line `i` on, as its loop invariant names it: the
   * same outcome as `ServersFrom`, behind one non-recursive call so that the
   * loop's proof does not decode the next line.
   */
  function ServersLeft(lines: seq<string>, i: int, end: int, st: ParserState): Outcome
    requires 0 <= i && end <= |lines|
  {
    ServersFrom(lines, i, end, st)
  }

  /** Server line `i`, then the rest of the loop. */
  function ServerLine(lines: seq<string>, i: int, end: int, st: ParserState): Outcome
    requires 0 <= i < end <= |lines|
    decreases end - i, 0
  {
    match ServerEntry(lines[i])
    case Err(e) => Outcome(st, Some(e))
    case Ok((id, a)) => ServersFrom(lines, i + 1, end, st.(servers := st.servers[id := a]))
  }

  /**
   * The fields of neighbour line `i`: the source id (first character), the
   * neighbour id (second character) and the cost (the rest). The whole entry
   * must be an integer of at least three characters.
   */
  function NeighborFields(lines: seq<string>, i: int): Result<(int, int, Cost), ParseError>
    requires i < |lines|
  {
    if i < -|lines| then Err(IndexOutOfRange)
    else
      var entry := Strip(PyIndex(lines, i));
      if entry == [] then Err(EmptyNeighborEntry)
      else if ParseInt(entry).None? then Err(BadNeighborEntry)
      else if |entry| < 3 then Err(EntryTooShort)
      else
        var id1, id2 := ParseInt([entry[0]]), ParseInt([entry[1]]);
        if id1.None? || id2.None? then Err(NotAnInteger)
        else
          var cost := ParseCost(entry[2..]);
          if cost.None? then Err(BadCost)
          else Ok((id1.value, id2.value, cost.value))
  }

  /** The checks and updates of a neighbour line once its three fields are read. */
  function LinkStep(start: int, i: int, id1: int, id2: int, cost: Cost, st: ParserState): Outcome {
    if i == start && id1 !in st.servers then Outcome(st.(myServerId := Some(id1)), Some(MyIdNotListed))
    else
      var me := if i == start then st.(myServerId := Some(id1), myIp := Some(st.servers[id1].ip),
                                        myPort := Some(st.servers[id1].port))
                else st;
      if me.myServerId != Some(id1) then Outcome(me, Some(WrongSource))
      else if id2 !in me.servers then Outcome(me, Some(NeighborNotListed))
      else if me.myServerId == Some(id2) then Outcome(me, Some(SelfLink))
      else Outcome(me.(neighbors := me.neighbors[id2 := cost]), None)
  }

  /** The neighbour loop from line `i` on; the first failing line stops it. */
  function NeighborsFrom(lines: seq<string>, start: int, i: int, end: int, st: ParserState): Outcome
    requires end <= |lines|
    decreases end - i, 1
  {
    if i >= end then Outcome(st, None) else NeighborLine(lines, start, i, end, st)
  }

  /**
   * The neighbour loop from line `i` on, as its loop invariant names it:
   * the same outcome as `NeighborsFrom`, behind one non-recursive call so
   * that the loop's proof does not decode the next line.
   */
  function NeighborsLeft(lines: seq<string>, start: int, i: int, end: int, st: ParserState): Outcome
    requires end <= |lines|
  {
    NeighborsFrom(lines, start, i, end, st)
  }

  /**
   * Neighbour line `i` of the loop that starts at `start`, then the rest of
   * the loop. The first line also fixes this server's id (even when that id
   * turns out to be unlisted) and its address.
   */
  function NeighborLine(lines: seq<string>, start: int, i: int, end: int, st: ParserState): Outcome
    requires i < end <= |lines|
    decreases end - i, 0
  {
    match NeighborFields(lines, i)
    case Err(e) => Outcome(st, Some(e))
    case Ok((id1, id2, cost)) =>
      var o := LinkStep(start, i, id1, id2, cost, st);
      if o.failure.Some? then o else NeighborsFrom(lines, start, i + 1, end, o.state)
  }

  /**
   * `TopologyParser.parse` on a file whose lines are `raw`, starting from the
   * parser's current fields `st` (they are not reset between calls).
   */
  function ParseTopology(raw: seq<string>, st: ParserState): Outcome {
    ParseLines(NonBlank(raw), st)
  }

  /** `parse` once the file is reduced to its stripped, non-blank lines. */
  function ParseLines(lines: seq<string>, st: ParserState): Outcome {
    if |lines| < 2 then Outcome(st, Some(TooShort))
    else match ParseInt(lines[0])
      case None => Outcome(st, Some(NotAnInteger))
      case Some(ns) =>
        var st1 := st.(numServers := ns);
        match ParseInt(lines[1])
        case None => Outcome(st1, Some(NotAnInteger))
        case Some(nn) => ParseEntries(lines, st1.(numNeighbors := nn))
  }

  /** The server lines, then the neighbour lines, once both counts are read into `st`. */
  function ParseEntries(lines: seq<string>, st: ParserState): Outcome {
    var serverEnd := 2 + st.numServers;
    if |lines| < serverEnd then Outcome(st, Some(NotEnoughServers))
    else
      var o := ServersFrom(lines, 2, serverEnd, st);
      if o.failure.Some? then o else ParseNeighbors(lines, o.state)
  }

  /** The neighbour lines, which follow the server lines. */
  function ParseNeighbors(lines: seq<string>, st: ParserState): Outcome {
    var start := 2 + st.numServers;
    if |lines| < start + st.numNeighbors then Outcome(st, Some(NotEnoughNeighbors))
    else NeighborsFrom(lines, start, start, start + st.numNeighbors, st)
  }

  /** What `parse` hands back: the fields, or the `ValueError`. */
  function Answer(o: Outcome): Result<ParserState, ParseError> {
    if o.failure.Some? then Err(o.failure.value) else Ok(o.state)
  }

  class TopologyParser {
    /** The file is read by the caller; its lines are passed to `Parse`. */
    const filename: string
    var numServers: int
    var numNeighbors: int
    /** server id -> its address */
    var servers: map<int, Address>
    /** neighbour id -> link cost */
    var neighbors: map<int, Cost>
    var myServerId: Option<int>
    var myIp: Option<string>
    var myPort: Option<int>

    function State(): ParserState
      reads this
    {
      ParserState(numServers, numNeighbors, servers, neighbors, myServerId, myIp, myPort)
    }

    constructor (filename: string)
      ensures this.filename == filename
      ensures State() == Fresh
    {
      this.filename := filename;
      numServers := 0;
      numNeighbors := 0;
      servers := map[];
      neighbors := map[];
      myServerId := None;
      myIp := None;
      myPort := None;
    }

    /** Reads the file's lines `raw`; on failure the fields keep what was written before it. */
    method Parse(raw: seq<string>) returns (r: Result<ParserState, ParseError>)
      modifies this
      ensures var o := ParseTopology(raw, old(State()));
        State() == o.state && r == Answer(o)
    {
      var lines := NonBlank(raw);
      if |lines| < 2 {
        return Err(TooShort);
      }
      var ns := ParseInt(lines[0]);
      if ns.None? {
        return Err(NotAnInteger);
      }
      numServers := ns.value;
      var nn := ParseInt(lines[1]);
      if nn.None? {
        return Err(NotAnInteger);
      }
      numNeighbors := nn.value;
      assert ParseTopology(raw, old(State())) == ParseEntries(lines, State());
      r := ReadEntries(lines);
    }

    /** Everything after the two counts. */
    method ReadEntries(lines: seq<string>) returns (r: Result<ParserState, ParseError>)
      requires 2 <= |lines|
      modifies this
      ensures var o := ParseEntries(lines, old(State()));
        State() == o.state && r == Answer(o)
    {
      var st := State();
      var serverEnd := 2 + st.numServers;
      if |lines| < serverEnd {
        return Err(NotEnoughServers);
      }
      var failure := ReadServers(lines, serverEnd);
      if failure.Some? {
        return Err(failure.value);
      }
      r := ReadNeighborSection(lines);
    }

    /** The part after the server loop. */
    method ReadNeighborSection(lines: seq<string>) returns (r: Result<ParserState, ParseError>)
      modifies this
      ensures var o := ParseNeighbors(lines, old(State()));
        State() == o.state && r == Answer(o)
    {
      var st := State();
      var start := 2 + st.numServers;
      if |lines| < start + st.numNeighbors {
        return Err(NotEnoughNeighbors);
      }
      var failure := ReadNeighbors(lines, start, start + st.numNeighbors);
      if failure.Some? {
        return Err(failure.value);
      }
      return Ok(State());
    }

    /** The first loop: one server line per index in `2 .. serverEnd - 1`. */
    method ReadServers(lines: seq<string>, serverEnd: int) returns (failure: Option<ParseError>)
      requires 2 <= |lines| && serverEnd <= |lines|
      modifies this
      ensures Outcome(State(), failure) == ServersFrom(lines, 2, serverEnd, old(State()))
    {
      ghost var whole := ServersLeft(lines, 2, serverEnd, State());
      var i := 2;
      while i < serverEnd
        invariant 2 <= i <= |lines|
        invariant i <= serverEnd || i == 2
        invariant ServersLeft(lines, i, serverEnd, State()) == whole
        decreases serverEnd - i
      {
        failure := ReadServerLine(lines, i, serverEnd);
        if failure.Some? {
          return;
        }
        i := i + 1;
      }
      return None;
    }

    /** The body of the first loop, for line index `i`. */
    method ReadServerLine(lines: seq<string>, i: int, end: int) returns (failure: Option<ParseError>)
      requires 0 <= i < end <= |lines|
      modifies this
      ensures ServersLeft(lines, i, end, old(State()))
        == if failure.Some? then Outcome(State(), failure) else ServersLeft(lines, i + 1, end, State())
    {
      assert ServersLeft(lines, i, end, old(State())) == ServerLine(lines, i, end, old(State()));
      var entry := ServerEntry(lines[i]);
      if entry.Err? {
        return Some(entry.error);
      }
      var (id, address) := entry.value;
      servers := servers[id := address];
      return None;
    }

    /** The second loop: one neighbour line per index in `start .. end - 1`. */
    method ReadNeighbors(lines: seq<string>, start: int, end: int) returns (failure: Option<ParseError>)
      requires end <= |lines|
      modifies this
      ensures Outcome(State(), failure) == NeighborsFrom(lines, start, start, end, old(State()))
    {
      ghost var whole := NeighborsLeft(lines, start, start, end, State());
      var i := start;
      while i < end
        invariant start <= i
        invariant i <= end || i == start
        invariant NeighborsLeft(lines, start, i, end, State()) == whole
        decreases end - i
      {
        failure := ReadNeighborLine(lines, start, i, end);
        if failure.Some? {
          return;
        }
        i := i + 1;
      }
      return None;
    }

    /** The body of the second loop, for line index `i`. */
    method ReadNeighborLine(lines: seq<string>, start: int, i: int, end: int) returns (failure: Option<ParseError>)
      requires i < end <= |lines|
      modifies this
      ensures NeighborsLeft(lines, start, i, end, old(State()))
        == if failure.Some? then Outcome(State(), failure) else NeighborsLeft(lines, start, i + 1, end, State())
    {
      assert NeighborsLeft(lines, start, i, end, old(State())) == NeighborLine(lines, start, i, end, old(State()));
      var fields := NeighborFields(lines, i);
      if fields.Err? {
        return Some(fields.error);
      }
      var (id1, id2, cost) := fields.value;
      failure := ApplyLink(start, i, id1, id2, cost);
    }

    /** The checks and updates of the second loop's body once the line's fields are read. */
    method ApplyLink(start: int, i: int, id1: int, id2: int, cost: Cost) returns (failure: Option<ParseError>)
      modifies this
      ensures Outcome(State(), failure) == LinkStep(start, i, id1, id2, cost, old(State()))
    {
      if i == start {
        myServerId := Some(id1);
        if id1 !in servers {
          return Some(MyIdNotListed);
        }
        myIp := Some(servers[id1].ip);
        myPort := Some(servers[id1].port);
      }
      if myServerId != Some(id1) {
        return Some(WrongSource);
      }
      if id2 !in servers {
        return Some(NeighborNotListed);
      }
      if myServerId == Some(id2) {
        return Some(SelfLink);
      }
      neighbors := neighbors[id2 := cost];
      return None;
    }
  }
}
