/** The parser for the output of `show vlan` on Cisco IOS devices.

    The source keeps every line of the command output that matches the regular
    expression `^(\d+)\s+(\S+)\s+\S+.*$` and turns it into a record holding the
    first two groups. Here the pattern is stated twice: declaratively, as a way
    of cutting the line into five pieces (`Shaped`), and operationally, as the
    scan that takes the maximal run of each character class (`MatchLine`).
    `\d` is an ASCII digit and `\s` ASCII white space. */
module VlanParser {
  import opened Wrappers

  /** One parsed row, the dictionary `{"vlan_id": id, "vlan_name": name}`. */
  datatype VlanRecord = VlanRecord(vlanId: string, vlanName: string)

  /** The only (command, device type) pair that has a grammar. */
  const ShowVlan := "show vlan"
  const CiscoIos := "cisco_ios"

  predicate IsDigit(c: char) {
    '0' <= c <= '9'
  }

  /** `\s` restricted to ASCII: space, tab, line feed, carriage return,
      vertical tab and form feed. */
  predicate IsSpace(c: char) {
    c == ' ' || c == '\t' || c == '\n' || c == '\r' || c == '\U{B}' || c == '\U{C}'
  }

  /** The character classes the pattern uses: `\d`, `\s` and `\S`. */
  datatype CharClass = Digit | Space | NonSpace

  predicate InClass(c: char, cls: CharClass) {
    match cls
    case Digit => IsDigit(c)
    case Space => IsSpace(c)
    case NonSpace => !IsSpace(c)
  }

  predicate AllIn(s: string, cls: CharClass) {
    forall k :: 0 <= k < |s| ==> InClass(s[k], cls)
  }

  // ---------------------------------------------------------------------------
  // The pattern, declaratively
  // ---------------------------------------------------------------------------

  /** `line` is `id ws1 name ws2 rest` where the pieces are what the groups
      `(\d+)`, `\s+`, `(\S+)`, `\s+` and `\S+.*` can match. Lines never hold a
      line feed (they come out of a split on "\n"), so `.*$` takes whatever
      remains. */
  ghost predicate Shaped(line: string, id: string, ws1: string, name: string, ws2: string, rest: string) {
    && line == id + ws1 + name + ws2 + rest
    && |id| > 0 && AllIn(id, Digit)
    && |ws1| > 0 && AllIn(ws1, Space)
    && |name| > 0 && AllIn(name, NonSpace)
    && |ws2| > 0 && AllIn(ws2, Space)
    && |rest| > 0 && !IsSpace(rest[0])
  }

  /** `re.search` finds the pattern in `line`, for a line without a line
      feed (the only kind the parser gives it). On other text `.*` stops at a
      line feed and `$` admits only a final one, which this form does not
      capture. */
  ghost predicate LineMatches(line: string) {
    exists id, ws1, name, ws2, rest :: Shaped(line, id, ws1, name, ws2, rest)
  }

  // ---------------------------------------------------------------------------
  // The pattern, as a scan
  // ---------------------------------------------------------------------------

  /** The end of the maximal run of `cls` characters that starts at `i`. */
  function RunEnd(s: string, i: nat, cls: CharClass): (j: nat)
    requires i <= |s|
    ensures i <= j <= |s|
    ensures forall k :: i <= k < j ==> InClass(s[k], cls)
    ensures j < |s| ==> !InClass(s[j], cls)
    decreases |s| - i
  {
    if i < |s| && InClass(s[i], cls) then RunEnd(s, i + 1, cls) else i
  }

  /** The record one line yields, if any. The identifier is the maximal digit
      run that opens the line and is followed by white space; the name is the
      whole token after that white space. */
  function MatchLine(line: string): (r: Option<VlanRecord>)
    ensures r.Some? ==> |r.value.vlanId| + |r.value.vlanName| + 3 <= |line|
  {
    var i := RunEnd(line, 0, Digit);
    var j := RunEnd(line, i, Space);
    var k := RunEnd(line, j, NonSpace);
    var l := RunEnd(line, k, Space);
    if 0 < i < j < k < l < |line| then Some(VlanRecord(line[..i], line[j..k])) else None
  }

  /** A record's identifier is a non-empty run of digits that opens the line
      and is followed by white space; its name is a non-empty token without
      white space. */
  lemma MatchLineFields(line: string)
    requires MatchLine(line).Some?
    ensures var r := MatchLine(line).value;
      && 0 < |r.vlanId| < |line|
      && r.vlanId == line[..|r.vlanId|]
      && AllIn(r.vlanId, Digit)
      && IsSpace(line[|r.vlanId|])
      && |r.vlanName| > 0 && AllIn(r.vlanName, NonSpace)
  {
    var i := RunEnd(line, 0, Digit);
    var j := RunEnd(line, i, Space);
    RunSlice(line, 0, Digit);
    RunSlice(line, j, NonSpace);
    assert line[0..i] == line[..i];
  }

  /** A run of `cls` characters from `i` to `j` that cannot be extended is
      what `RunEnd` finds. */
  lemma RunEndAt(s: string, i: nat, j: nat, cls: CharClass)
    requires i <= j <= |s|
    requires forall k :: i <= k < j ==> InClass(s[k], cls)
    requires j < |s| ==> !InClass(s[j], cls)
    ensures RunEnd(s, i, cls) == j
  {
  }

  /** The scan finds a record exactly when the pattern matches, on a line
      without a line feed. */
  lemma MatchLineIffMatches(line: string)
    ensures MatchLine(line).Some? <==> LineMatches(line)
  {
    if MatchLine(line).Some? {
      MatchLineShaped(line);
    } else if LineMatches(line) {
      var id, ws1, name, ws2, rest :| Shaped(line, id, ws1, name, ws2, rest);
      MatchLineOfShaped(line, id, ws1, name, ws2, rest);
    }
  }

  /** When the scan finds a record, the line is cut by the pattern at the
      ends of the four runs, and the record holds the first and third
      pieces. */
  lemma MatchLineShaped(line: string)
    requires MatchLine(line).Some?
    ensures exists ws1, ws2, rest :: Shaped(line, MatchLine(line).value.vlanId, ws1, MatchLine(line).value.vlanName, ws2, rest)
  {
    var i := RunEnd(line, 0, Digit);
    var j := RunEnd(line, i, Space);
    var k := RunEnd(line, j, NonSpace);
    var l := RunEnd(line, k, Space);
    var id, ws1, name, ws2, rest := line[..i], line[i..j], line[j..k], line[k..l], line[l..];
    RunSlice(line, 0, Digit);
    RunSlice(line, i, Space);
    RunSlice(line, j, NonSpace);
    RunSlice(line, k, Space);
    assert line[0..i] == id;
    CutFive(line, i, j, k, l);
    assert rest[0] == line[l];
    assert Shaped(line, id, ws1, name, ws2, rest);
  }

  /** A line is the concatenation of its five pieces between four cuts. */
  lemma CutFive(line: string, i: nat, j: nat, k: nat, l: nat)
    requires i <= j <= k <= l <= |line|
    ensures line == line[..i] + line[i..j] + line[j..k] + line[k..l] + line[l..]
  {
    assert line[..j] == line[..i] + line[i..j];
    assert line[..k] == line[..j] + line[j..k];
    assert line[..l] == line[..k] + line[k..l];
    assert line == line[..l] + line[l..];
  }

  /** The run `RunEnd` finds, as a slice, is all of one class. */
  lemma RunSlice(s: string, i: nat, cls: CharClass)
    requires i <= |s|
    ensures AllIn(s[i..RunEnd(s, i, cls)], cls)
  {
    var j := RunEnd(s, i, cls);
    assert forall m :: 0 <= m < j - i ==> s[i..j][m] == s[i + m];
  }

  /** Whatever cut of the line fits the pattern, the scan returns its
      identifier and name: the regular expression has only one way to match. */
  lemma MatchLineOfShaped(line: string, id: string, ws1: string, name: string, ws2: string, rest: string)
    requires Shaped(line, id, ws1, name, ws2, rest)
    ensures MatchLine(line) == Some(VlanRecord(id, name))
  {
    var a := |id|;
    var b := a + |ws1|;
    var c := b + |name|;
    var d := c + |ws2|;
    assert line[..a] == id;
    assert line[a..b] == ws1;
    assert line[b..c] == name;
    assert line[c..d] == ws2;
    assert line[d..] == rest;
    assert forall k :: 0 <= k < a ==> line[k] == line[..a][k];
    assert forall k :: a <= k < b ==> line[k] == line[a..b][k - a];
    assert forall k :: b <= k < c ==> line[k] == line[b..c][k - b];
    assert forall k :: c <= k < d ==> line[k] == line[c..d][k - c];
    assert line[d] == rest[0];
    RunEndAt(line, 0, a, Digit);
    RunEndAt(line, a, b, Space);
    RunEndAt(line, b, c, NonSpace);
    RunEndAt(line, c, d, Space);
  }

  // ---------------------------------------------------------------------------
  // Splitting the output into lines
  // ---------------------------------------------------------------------------

  /** Python's `output.split("\n")`: the pieces between line feeds, so there
      is always at least one, and none holds a line feed. */
  function SplitLines(s: string): (lines: seq<string>)
    ensures |lines| >= 1
    ensures forall i :: 0 <= i < |lines| ==> '\n' !in lines[i]
  {
    if |s| == 0 then [""]
    else
      var tail := SplitLines(s[1..]);
      if s[0] == '\n' then [""] + tail
      else [[s[0]] + tail[0]] + tail[1..]
  }

  /** `"\n".join(lines)`. */
  function JoinLines(lines: seq<string>): string
    requires |lines| >= 1
  {
    if |lines| == 1 then lines[0] else lines[0] + "\n" + JoinLines(lines[1..])
  }

  /** Joining the pieces of a split gives the text back. */
  lemma {:induction false} JoinSplitLines(s: string)
    ensures JoinLines(SplitLines(s)) == s
  {
    if |s| > 0 {
      var tail := SplitLines(s[1..]);
      JoinSplitLines(s[1..]);
      if s[0] == '\n' {
        assert s == [s[0]] + s[1..];
      } else if |tail| == 1 {
        assert s == [s[0]] + s[1..];
      } else {
        assert ([[s[0]] + tail[0]] + tail[1..])[1..] == tail[1..];
        assert s == [s[0]] + s[1..];
      }
    }
  }

  /** A line without a line feed splits into itself. */
  lemma {:induction false} SplitLinesOfLine(line: string)
    requires '\n' !in line
    ensures SplitLines(line) == [line]
  {
    if |line| > 0 {
      SplitLinesOfLine(line[1..]);
      assert line == [line[0]] + line[1..];
    }
  }

  /** Splitting `a + "\n" + b` splits `a` and `b` separately. */
  lemma {:induction false} SplitLinesConcat(a: string, b: string)
    ensures SplitLines(a + "\n" + b) == SplitLines(a) + SplitLines(b)
  {
    var s := a + "\n" + b;
    if |a| == 0 {
      assert s == "\n" + b;
      assert s[1..] == b;
    } else {
      assert s[1..] == a[1..] + "\n" + b;
      SplitLinesConcat(a[1..], b);
    }
  }

  // ---------------------------------------------------------------------------
  // The parser
  // ---------------------------------------------------------------------------

  /** The records the matching lines yield, in line order. */
  function ParseLines(lines: seq<string>): (records: seq<VlanRecord>)
    ensures |records| <= |lines|
  {
    if lines == [] then [] else LineRecords(lines[0]) + ParseLines(lines[1..])
  }

  /** The record of one line, as a sequence of zero or one records. */
  function LineRecords(line: string): seq<VlanRecord> {
    match MatchLine(line) case Some(r) => [r] case None => []
  }

  /** What `custom_parser` returns: records for `show vlan` on `cisco_ios`,
      nothing for every other pair. */
  function Parse(output: string, command: string, deviceType: string): (records: seq<VlanRecord>)
    ensures |records| <= |SplitLines(output)|
  {
    if command == ShowVlan && deviceType == CiscoIos then ParseLines(SplitLines(output)) else []
  }

  lemma {:induction false} ParseLinesAppend(a: seq<string>, b: seq<string>)
    ensures ParseLines(a + b) == ParseLines(a) + ParseLines(b)
  {
    if a != [] {
      assert (a + b)[0] == a[0];
      assert (a + b)[1..] == a[1..] + b;
      ParseLinesAppend(a[1..], b);
      assert ParseLines(a) == LineRecords(a[0]) + ParseLines(a[1..]);
    } else {
      assert a + b == b;
    }
  }

  /** Parsing one more line appends that line's record, if any. */
  lemma ParseLinesSnoc(lines: seq<string>, i: nat)
    requires i < |lines|
    ensures ParseLines(lines[..i + 1]) == ParseLines(lines[..i]) + LineRecords(lines[i])
  {
    assert [lines[i]][1..] == [];
    ParseLinesAppend(lines[..i], [lines[i]]);
    assert lines[..i + 1] == lines[..i] + [lines[i]];
  }

  /** `custom_parser`: a loop over the lines of the output that appends the
      record of every line the pattern matches. */
  method CustomParser(output: string, command: string, deviceType: string) returns (parsed: seq<VlanRecord>)
    ensures parsed == Parse(output, command, deviceType)
  {
    parsed := [];
    if command == ShowVlan && deviceType == CiscoIos {
      var lines := SplitLines(output);
      var i := 0;
      while i < |lines|
        invariant 0 <= i <= |lines|
        invariant parsed == ParseLines(lines[..i])
      {
        var m := MatchLine(lines[i]);
        if m.Some? {
          parsed := parsed + [m.value];
        }
        ParseLinesSnoc(lines, i);
        i := i + 1;
      }
      assert lines[..i] == lines;
    }
  }

  // ---------------------------------------------------------------------------
  // Properties of the parser
  // ---------------------------------------------------------------------------

  /** The indices of the lines that yield a record, in increasing order. */
  function MatchingLines(lines: seq<string>): seq<nat> {
    if lines == [] then []
    else
      var tail := Shifted(MatchingLines(lines[1..]));
      if MatchLine(lines[0]).Some? then [0] + tail else tail
  }

  function Shifted(idx: seq<nat>): (r: seq<nat>)
    ensures |r| == |idx| && forall k :: 0 <= k < |r| ==> r[k] == idx[k] + 1
  {
    seq(|idx|, k requires 0 <= k < |idx| => idx[k] + 1)
  }

  /** Every index points at a line, the indices strictly increase, and there
      is one index per record. */
  lemma {:induction false} MatchingLinesShape(lines: seq<string>)
    ensures var idx := MatchingLines(lines);
      && |idx| == |ParseLines(lines)|
      && (forall k :: 0 <= k < |idx| ==> idx[k] < |lines|)
      && (forall k, m :: 0 <= k < m < |idx| ==> idx[k] < idx[m])
  {
    if lines != [] {
      var t := MatchingLines(lines[1..]);
      MatchingLinesShape(lines[1..]);
      ShiftedShape(t, |lines| - 1);
      if MatchLine(lines[0]).Some? {
        assert MatchingLines(lines) == [0] + Shifted(t);
        assert ParseLines(lines) == [MatchLine(lines[0]).value] + ParseLines(lines[1..]);
      } else {
        assert MatchingLines(lines) == Shifted(t);
        assert ParseLines(lines) == ParseLines(lines[1..]);
      }
    }
  }

  /** Shifting increasing indices below `n` gives increasing indices below
      `n + 1`, and they stay increasing with 0 put in front. */
  lemma ShiftedShape(t: seq<nat>, n: nat)
    requires forall k :: 0 <= k < |t| ==> t[k] < n
    requires forall k, m :: 0 <= k < m < |t| ==> t[k] < t[m]
    ensures var s := Shifted(t);
      && (forall k :: 0 <= k < |s| ==> s[k] < n + 1)
      && (forall k, m :: 0 <= k < m < |s| ==> s[k] < s[m])
      && (forall k :: 0 <= k < |[0] + s| ==> ([0] + s)[k] < n + 1)
      && (forall k, m :: 0 <= k < m < |[0] + s| ==> ([0] + s)[k] < ([0] + s)[m])
  {
    var s := Shifted(t);
    assert forall k :: 1 <= k < |[0] + s| ==> ([0] + s)[k] == s[k - 1];
  }

  /** Record `k` of the output is the record of line `idx[k]`: each record
      comes from its own line, in line order. */
  lemma {:induction false} MatchingLinesRecords(lines: seq<string>)
    ensures var idx := MatchingLines(lines);
      forall k :: 0 <= k < |idx| ==>
        idx[k] < |lines| && k < |ParseLines(lines)| && MatchLine(lines[idx[k]]) == Some(ParseLines(lines)[k])
  {
    MatchingLinesShape(lines);
    if lines != [] {
      var t, p := MatchingLines(lines[1..]), ParseLines(lines[1..]);
      MatchingLinesRecords(lines[1..]);
      MatchingLinesShape(lines[1..]);
      if MatchLine(lines[0]).Some? {
        RecordsMatchingHead(lines, t, p);
      } else {
        RecordsSkippedHead(lines, t, p);
      }
    }
  }

  /** The step of `MatchingLinesRecords` when the first line yields a record. */
  lemma RecordsMatchingHead(lines: seq<string>, t: seq<nat>, p: seq<VlanRecord>)
    requires lines != [] && MatchLine(lines[0]).Some?
    requires t == MatchingLines(lines[1..]) && p == ParseLines(lines[1..]) && |t| == |p|
    requires forall k :: 0 <= k < |t| ==> t[k] < |lines| - 1 && MatchLine(lines[1..][t[k]]) == Some(p[k])
    ensures var idx := MatchingLines(lines);
      forall k :: 1 <= k < |idx| ==> MatchLine(lines[idx[k]]) == Some(ParseLines(lines)[k])
  {
    var idx := MatchingLines(lines);
    var pl := ParseLines(lines);
    assert pl == [MatchLine(lines[0]).value] + p;
    assert idx == [0] + Shifted(t);
    forall k | 1 <= k < |idx|
      ensures MatchLine(lines[idx[k]]) == Some(pl[k])
    {
      var j := k - 1;
      assert idx[k] == t[j] + 1;
      assert lines[idx[k]] == lines[1..][t[j]];
      assert pl[k] == p[j];
    }
  }

  /** The step of `MatchingLinesRecords` when the first line yields nothing. */
  lemma RecordsSkippedHead(lines: seq<string>, t: seq<nat>, p: seq<VlanRecord>)
    requires lines != [] && MatchLine(lines[0]).None?
    requires t == MatchingLines(lines[1..]) && p == ParseLines(lines[1..]) && |t| == |p|
    requires forall k :: 0 <= k < |t| ==> t[k] < |lines| - 1 && MatchLine(lines[1..][t[k]]) == Some(p[k])
    ensures var idx := MatchingLines(lines);
      forall k :: 0 <= k < |idx| ==> MatchLine(lines[idx[k]]) == Some(ParseLines(lines)[k])
  {
    var idx := MatchingLines(lines);
    var pl := ParseLines(lines);
    assert pl == p;
    assert idx == Shifted(t);
    forall k | 0 <= k < |idx|
      ensures MatchLine(lines[idx[k]]) == Some(pl[k])
    {
      assert idx[k] == t[k] + 1;
      assert lines[idx[k]] == lines[1..][t[k]];
    }
  }

  /** Every line the pattern matches is among the indices: no matching line
      is dropped. */
  lemma {:induction false} MatchingLinesComplete(lines: seq<string>, n: nat)
    requires n < |lines| && MatchLine(lines[n]).Some?
    ensures n in MatchingLines(lines)
  {
    var tail := Shifted(MatchingLines(lines[1..]));
    if n > 0 {
      MatchingLinesComplete(lines[1..], n - 1);
      var k :| 0 <= k < |MatchingLines(lines[1..])| && MatchingLines(lines[1..])[k] == n - 1;
      assert tail[k] == n;
    }
  }

  /** Only `show vlan` on `cisco_ios` has a grammar; any other pair gives no
      records (and is not an error). */
  lemma ParseUnsupported(output: string, command: string, deviceType: string)
    requires command != ShowVlan || deviceType != CiscoIos
    ensures Parse(output, command, deviceType) == []
  {
  }

  /** At most one record per line of the output. */
  lemma ParseBound(output: string, command: string, deviceType: string)
    ensures |Parse(output, command, deviceType)| <= |SplitLines(output)|
  {
  }

  /** Parsing two texts joined by a line feed parses each of them. */
  lemma ParseConcat(a: string, b: string, command: string, deviceType: string)
    ensures Parse(a + "\n" + b, command, deviceType) == Parse(a, command, deviceType) + Parse(b, command, deviceType)
  {
    SplitLinesConcat(a, b);
    ParseLinesAppend(SplitLines(a), SplitLines(b));
  }

  /** The parse of one line without a line feed: its record if the pattern
      matches, nothing otherwise. */
  lemma ParseOneLine(line: string)
    requires '\n' !in line
    ensures Parse(line, ShowVlan, CiscoIos) == match MatchLine(line) case Some(r) => [r] case None => []
  {
    SplitLinesOfLine(line);
  }

  /** A line that does not open with a digit yields nothing: headers,
      dash separators, blank lines and indented continuation lines. */
  lemma NoLeadingDigit(line: string)
    requires line == [] || !IsDigit(line[0])
    ensures MatchLine(line) == None
  {
    RunEndAt(line, 0, 0, Digit);
  }

  /** The prompt, the blank line, the header and the dash separator that
      open the sample `show vlan` output yield nothing. */
  lemma SampleNonRows()
    ensures MatchLine(PromptLine) == None
    ensures MatchLine("") == None
    ensures MatchLine(HeaderLine) == None
    ensures MatchLine(DashLine) == None
  {
    assert "ar"[0] == 'a' && "VLAN"[0] == 'V' && "----"[0] == '-';
    assert PromptLine[0] == 'a' && HeaderLine[0] == 'V' && DashLine[0] == '-';
    NoLeadingDigit(PromptLine);
    NoLeadingDigit("");
    NoLeadingDigit(HeaderLine);
    NoLeadingDigit(DashLine);
  }

  /** The prompt line of the sample. */
  const PromptLine := "ar" + "-mun-cd-11-dc-01#show vlan"
  /** The column header of the sample's status table. */
  const HeaderLine := "VLAN" + " Name" + "                             " + "Status    Ports"
  /** The dash line under that header. */
  const DashLine := "----" + " " + "--------------------------------" + " " + "---------" + " "
    + "-------------------------------"

  /** A row that stops after the name lacks the third token and yields
      nothing. */
  lemma SampleTruncatedRow()
    ensures MatchLine("1    default") == None
  {
    var short := "1    default";
    assert short[0] == '1' && short[1] == ' ' && short[4] == ' ' && short[5] == 'd';
    RunEndAt(short, 0, 1, Digit);
    RunEndAt(short, 1, 5, Space);
    RunEndAt(short, 5, 12, NonSpace);
    RunEndAt(short, 12, 12, Space);
  }

  /** Two matching lines joined by a line feed yield both records, in
      order, even when they carry the same identifier: records are not
      merged by identifier. */
  lemma ParseTwoRows(row1: string, row2: string)
    requires '\n' !in row1 && '\n' !in row2
    requires MatchLine(row1).Some? && MatchLine(row2).Some?
    ensures Parse(row1 + "\n" + row2, ShowVlan, CiscoIos) == [MatchLine(row1).value, MatchLine(row2).value]
  {
    ParseOneLine(row1);
    ParseOneLine(row2);
    ParseConcat(row1, row2, ShowVlan, CiscoIos);
  }

  /** The row of the status table of `show vlan` for VLAN 1, with its
      columns padded and its port list, gives identifier "1" and name
      "default". */
  lemma SampleStatusRow()
    ensures MatchLine(StatusRow) == Some(VlanRecord("1", "default"))
  {
    assert AllIn("    ", Space) && AllIn("                          ", Space);
    assert AllIn("default", NonSpace);
    assert "active"[0] == 'a';
    MatchLineOfShaped(StatusRow, "1", "    ", "default", "                          ", StatusRowTail);
  }

  const StatusRowTail := "active" + "    Gi0/3, Gi0/4, Gi0/5, Gi0/6, Gi0/7, Gi0/8, Gi0/9, Gi0/10, Gi0/11, Gi0/12, Gi0/13, Gi0/14, Gi0/15, Gi1/1, Gi1/3"
  const StatusRow := "1" + "    " + "default" + "                          " + StatusRowTail

  /** The row of the type table for VLAN 1 carries the same identifier 1,
      with its type "enet" taken as the name; it gives a record of its own,
      so the same identifier can come out twice. */
  lemma SampleTypeRow()
    ensures MatchLine(TypeRow) == Some(VlanRecord("1", "enet"))
  {
    assert AllIn("    ", Space) && AllIn("  ", Space);
    assert AllIn("enet", NonSpace);
    assert "100001"[0] == '1';
    MatchLineOfShaped(TypeRow, "1", "    ", "enet", "  ", TypeRowTail);
  }

  const TypeRowTail := "100001" + "     1500  -      -      -        -    -        0      0"
  const TypeRow := "1" + "    " + "enet" + "  " + TypeRowTail
}
