/** The parser for the text that `adb devices` prints, shared by `get_device_status`,
    `connect_device` and `check_adb_and_list_devices`: strip the output, split it into
    lines, drop the first (header) line, skip blank lines, split each row on
    whitespace, and keep the first token of every row whose second token is exactly
    "device". */
module AdbDevices {
  import opened PyText

  // ------------------------------------------------------------ reference

  /** A row the bridge reports as ready for automation. */
  predicate IsReadyRow(row: string) {
    var parts := Tokens(row);
    |parts| >= 2 && parts[1] == "device"
  }

  /** The identifier a row names: its first token. */
  function RowSerial(row: string): string
    requires IsReadyRow(row)
  {
    Tokens(row)[0]
  }

  /** Reference definition: the identifiers of the ready rows, in row order. Each is
      a non-empty run of visible characters. */
  function ReadySerials(rows: seq<string>): (r: seq<string>)
    ensures forall k :: 0 <= k < |r| ==> IsWord(r[k])
  {
    if rows == [] then [] else Contribution(rows[0]) + ReadySerials(rows[1..])
  }

  /** What one row adds: its identifier if it is ready, nothing otherwise. */
  function Contribution(row: string): seq<string> {
    if IsReadyRow(row) then [RowSerial(row)] else []
  }

  /** `lines[1:]`: everything after the header line. */
  function Body(lines: seq<string>): seq<string> {
    if lines == [] then [] else lines[1..]
  }

  /** The identifiers the tools obtain from the bridge's standard output. */
  function ParsedDevices(stdout: string): seq<string> {
    ReadySerials(Body(SplitLines(Strip(stdout))))
  }

  // ------------------------------------------------------------ the loop

  /** The parsing loop as the tools run it, including its `line.strip()` test. */
  method ListDevices(stdout: string) returns (devices: seq<string>)
    ensures devices == ParsedDevices(stdout)
  {
    var lines := SplitLines(Strip(stdout));
    var rows := Body(lines);
    devices := [];
    for i := 0 to |rows|
      invariant devices == ReadySerials(rows[..i])
    {
      var line := rows[i];
      ReadySerialsStep(rows, i);
      if Strip(line) != [] {
        var parts := Tokens(line);
        if |parts| >= 2 && parts[1] == "device" {
          devices := devices + [parts[0]];
        }
      } else {
        BlankRowNotReady(line);
      }
    }
    assert rows[..|rows|] == rows;
  }

  // ------------------------------------------------------------ properties

  /** A row that strips to nothing is never ready, so the `line.strip()` test only
      saves work. */
  lemma BlankRowNotReady(row: string)
    requires Strip(row) == []
    ensures !IsReadyRow(row)
  {
    StripEmptyIffBlank(row);
    TokensEmptyIffBlank(row);
  }

  /** Parsing distributes over concatenation of rows, so identifiers keep the order
      of their rows. */
  lemma {:induction false} ReadySerialsAppend(a: seq<string>, b: seq<string>)
    ensures ReadySerials(a + b) == ReadySerials(a) + ReadySerials(b)
    decreases |a|
  {
    if a == [] {
      assert a + b == b;
    } else {
      var ab := a + b;
      assert ab[0] == a[0] && ab[1..] == a[1..] + b;
      ReadySerialsAppend(a[1..], b);
      assert ReadySerials(ab) == Contribution(a[0]) + ReadySerials(a[1..] + b);
    }
  }

  /** One more row extends the result by that row's identifier, if it is ready. */
  lemma ReadySerialsStep(rows: seq<string>, i: nat)
    requires i < |rows|
    ensures ReadySerials(rows[..i + 1])
         == ReadySerials(rows[..i]) + if IsReadyRow(rows[i]) then [RowSerial(rows[i])] else []
  {
    assert rows[..i + 1] == rows[..i] + [rows[i]];
    ReadySerialsAppend(rows[..i], [rows[i]]);
  }

  /** An identifier is reported exactly when some ready row names it. */
  lemma {:induction false} ReadySerialsMembers(rows: seq<string>, x: string)
    ensures x in ReadySerials(rows) <==>
      exists i :: 0 <= i < |rows| && IsReadyRow(rows[i]) && RowSerial(rows[i]) == x
    decreases |rows|
  {
    if rows != [] {
      ReadySerialsMembers(rows[1..], x);
      if x in ReadySerials(rows[1..]) {
        var i :| 0 <= i < |rows[1..]| && IsReadyRow(rows[1..][i]) && RowSerial(rows[1..][i]) == x;
        assert rows[i + 1] == rows[1..][i];
      }
      if exists i :: 0 <= i < |rows| && IsReadyRow(rows[i]) && RowSerial(rows[i]) == x {
        var i :| 0 <= i < |rows| && IsReadyRow(rows[i]) && RowSerial(rows[i]) == x;
        if i > 0 {
          assert rows[1..][i - 1] == rows[i];
        }
      }
    }
  }

  /** At most one identifier per row; exactly one per row when every row is ready. */
  lemma {:induction false} ReadySerialsLength(rows: seq<string>)
    ensures |ReadySerials(rows)| <= |rows|
    ensures |ReadySerials(rows)| == |rows| <==> forall i :: 0 <= i < |rows| ==> IsReadyRow(rows[i])
    decreases |rows|
  {
    if rows != [] {
      ReadySerialsLength(rows[1..]);
      if forall i :: 0 <= i < |rows| ==> IsReadyRow(rows[i]) {
        assert forall i :: 0 <= i < |rows[1..]| ==> IsReadyRow(rows[1..][i]) by {
          forall i | 0 <= i < |rows[1..]| ensures IsReadyRow(rows[1..][i]) { assert rows[1..][i] == rows[i + 1]; }
        }
      }
      if |ReadySerials(rows)| == |rows| {
        forall i | 0 <= i < |rows| ensures IsReadyRow(rows[i]) {
          if i > 0 { assert rows[i] == rows[1..][i - 1]; }
        }
      }
    }
  }

  /** The result consists of words (non-empty, without whitespace or line
      boundaries), no more of them than there are lines after the header. */
  lemma ParsedDevicesBound(stdout: string)
    ensures forall k :: 0 <= k < |ParsedDevices(stdout)| ==> IsWord(ParsedDevices(stdout)[k])
    ensures |ParsedDevices(stdout)| <= |Body(SplitLines(Strip(stdout)))|
  {
    ReadySerialsLength(Body(SplitLines(Strip(stdout))));
  }

  /** Output that is a single line after stripping (a header alone, or nothing) lists
      no device. */
  lemma HeaderOnly(stdout: string)
    requires NoLineBreaks(Strip(stdout))
    ensures ParsedDevices(stdout) == []
  {
    OneLine(Strip(stdout));
  }

  /** Whatever the header line holds, as long as it is not all whitespace, it never
      contributes: the identifiers come only from what follows the first "\n" (with
      trailing whitespace stripped). A first line that is all whitespace is not a
      header at all: `strip()` removes it with the rest of the leading whitespace,
      and the first device row then takes the header's place. */
  lemma HeaderNeverCounts(header: string, rest: string)
    requires !Blank(header) && NoLineBreaks(header)
    ensures ParsedDevices(header + "\n" + rest) == ReadySerials(SplitLines(RStrip(rest)))
  {
    var h := LStrip(header);
    HeaderWhitespaceDropped(header, rest);
    LStripKeepsLine(header);
    SameLStripSameParse(header + "\n" + rest, h + "\n" + rest);
    VisibleHeaderNeverCounts(h, rest);
  }

  /** `lstrip()` removes the header's own leading whitespace and nothing after it. */
  lemma HeaderWhitespaceDropped(header: string, rest: string)
    requires !Blank(header)
    ensures LStrip(header) != [] && !IsWhitespace(LStrip(header)[0])
    ensures LStrip(header + "\n" + rest) == LStrip(LStrip(header) + "\n" + rest)
  {
    var h := LStrip(header);
    var tail := "\n" + rest;
    var t := h + tail;
    assert header + "\n" + rest == header + tail;
    assert h + "\n" + rest == t;
    LStripKeepsSuffix(header, tail);
    assert t[0] == h[0];
    LStripOfVisible(t);
  }

  lemma LStripOfVisible(t: string)
    requires t != [] && !IsWhitespace(t[0])
    ensures LStrip(t) == t
  {
  }

  /** Only what `lstrip()` leaves matters to the parse. */
  lemma SameLStripSameParse(s: string, t: string)
    requires LStrip(s) == LStrip(t)
    ensures ParsedDevices(s) == ParsedDevices(t)
  {
    assert Strip(s) == RStrip(LStrip(s));
    assert Strip(t) == RStrip(LStrip(t));
  }

  lemma LStripKeepsLine(x: string)
    requires NoLineBreaks(x)
    ensures NoLineBreaks(LStrip(x))
  {
    var h := LStrip(x);
    var n := |x| - |h|;
    forall k | 0 <= k < |h| ensures !IsLineBreak(h[k]) { assert h[k] == x[n..][k] == x[n + k]; }
  }

  /** `lstrip()` of a string whose head is not blank only touches the head, and
      leaves something. */
  lemma {:induction false} LStripKeepsSuffix(x: string, y: string)
    requires !Blank(x)
    ensures LStrip(x + y) == LStrip(x) + y
    ensures LStrip(x) != []
    decreases |x|
  {
    var s := x + y;
    assert s[0] == x[0];
    if IsWhitespace(x[0]) {
      assert !Blank(x[1..]) by {
        var k :| 0 <= k < |x| && !IsWhitespace(x[k]);
        assert x[1..][k - 1] == x[k];
      }
      assert s[1..] == x[1..] + y;
      LStripKeepsSuffix(x[1..], y);
    }
  }

  lemma VisibleHeaderNeverCounts(header: string, rest: string)
    requires header != [] && !IsWhitespace(header[0]) && NoLineBreaks(header)
    ensures ParsedDevices(header + "\n" + rest) == ReadySerials(SplitLines(RStrip(rest)))
  {
    var s := header + "\n" + rest;
    assert s[0] == header[0];
    assert LStrip(s) == s;
    if Blank(rest) {
      assert Blank("\n" + rest) by {
        forall k | 0 <= k < |"\n" + rest| ensures IsWhitespace(("\n" + rest)[k]) {
          if k > 0 { assert ("\n" + rest)[k] == rest[k - 1]; }
        }
      }
      assert s == header + ("\n" + rest);
      RStripDropsBlank(header, "\n" + rest);
      var r := RStrip(header);
      assert NoLineBreaks(r) by {
        forall k | 0 <= k < |r| ensures !IsLineBreak(r[k]) { assert r[k] == header[k]; }
      }
      OneLine(r);
      assert RStrip(rest) == [];
    } else {
      RStripKeepsPrefix(header + "\n", rest);
      assert Strip(s) == header + "\n" + RStrip(rest);
      assert RStrip(rest) != [];
      SplitAtBreak(header, "\n", RStrip(rest));
    }
  }

  /** `rstrip()` ignores a blank tail. */
  lemma {:induction false} RStripDropsBlank(x: string, tail: string)
    requires Blank(tail)
    ensures RStrip(x + tail) == RStrip(x)
    decreases |tail|
  {
    if tail == [] {
      assert x + tail == x;
    } else {
      var s := x + tail;
      assert s[|s| - 1] == tail[|tail| - 1];
      assert s[..|s| - 1] == x + tail[..|tail| - 1];
      RStripDropsBlank(x, tail[..|tail| - 1]);
    }
  }

  /** `rstrip()` of a string whose tail is not blank only touches the tail. */
  lemma {:induction false} RStripKeepsPrefix(x: string, y: string)
    requires !Blank(y)
    ensures RStrip(x + y) == x + RStrip(y)
    decreases |y|
  {
    var s := x + y;
    assert s[|s| - 1] == y[|y| - 1];
    if IsWhitespace(y[|y| - 1]) {
      var y' := y[..|y| - 1];
      assert !Blank(y') by {
        var k :| 0 <= k < |y| && !IsWhitespace(y[k]);
        assert y'[k] == y[k];
      }
      assert s[..|s| - 1] == x + y';
      RStripKeepsPrefix(x, y');
    }
  }

  // ------------------------------------------------------------ round trip

  /** One device as the bridge lists it: its identifier and its state. */
  datatype Entry = Entry(serial: string, state: string)

  predicate WellFormed(e: Entry) {
    IsWord(e.serial) && IsWord(e.state)
  }

  predicate AllWellFormed(es: seq<Entry>) {
    forall k :: 0 <= k < |es| ==> WellFormed(es[k])
  }

  /** The header line: starts and ends with a visible character, no line boundary. */
  predicate IsHeader(h: string) {
    h != [] && !IsWhitespace(h[0]) && !IsWhitespace(h[|h| - 1]) && NoLineBreaks(h)
  }

  /** "serial<TAB>state", the bridge's row format. */
  function RowText(e: Entry): string {
    e.serial + "\t" + e.state
  }

  function RowTexts(es: seq<Entry>): seq<string> {
    if es == [] then [] else [RowText(es[0])] + RowTexts(es[1..])
  }

  /** Each row preceded by "\n". */
  function RowsText(es: seq<Entry>): string {
    if es == [] then "" else "\n" + RowText(es[0]) + RowsText(es[1..])
  }

  /** The text the bridge prints: the header, one row per device, then a blank
      trailer (the bridge ends with an empty line). */
  function Listing(header: string, es: seq<Entry>, trailer: string): string {
    header + RowsText(es) + trailer
  }

  /** What the listing means: the identifiers whose state is exactly "device". */
  function ReadyEntries(es: seq<Entry>): seq<string> {
    if es == [] then []
    else (if es[0].state == "device" then [es[0].serial] else []) + ReadyEntries(es[1..])
  }

  lemma RowTextShape(e: Entry)
    requires WellFormed(e)
    ensures NoLineBreaks(RowText(e)) && RowText(e) != []
    ensures !IsWhitespace(RowText(e)[|RowText(e)| - 1])
    ensures Tokens(RowText(e)) == [e.serial, e.state]
  {
    var r := RowText(e);
    forall k | 0 <= k < |r| ensures !IsLineBreak(r[k]) {
      if k < |e.serial| {
        assert r[k] == e.serial[k];
      } else if k > |e.serial| {
        assert r[k] == e.state[k - |e.serial| - 1];
      }
    }
    assert r[|r| - 1] == e.state[|e.state| - 1];
    TokensOfPair(e.serial, "\t", e.state);
  }

  lemma {:induction false} RowsTextEndsVisible(es: seq<Entry>)
    requires es != [] && AllWellFormed(es)
    ensures RowsText(es) != [] && !IsWhitespace(RowsText(es)[|RowsText(es)| - 1])
    decreases |es|
  {
    var t := RowsText(es);
    RowTextShape(es[0]);
    if es[1..] == [] {
      assert t == "\n" + RowText(es[0]) + RowsText(es[1..]);
      assert t == "\n" + RowText(es[0]);
    } else {
      RowsTextEndsVisible(es[1..]);
      var u := RowsText(es[1..]);
      assert t == "\n" + RowText(es[0]) + u;
      assert t[|t| - 1] == u[|u| - 1];
    }
  }

  /** A line followed by well-formed rows splits into that line and the rows. */
  lemma {:induction false} LinesOfRows(line: string, es: seq<Entry>)
    requires line != [] && NoLineBreaks(line) && AllWellFormed(es)
    ensures SplitLines(line + RowsText(es)) == [line] + RowTexts(es)
    decreases |es|
  {
    if es == [] {
      assert line + RowsText(es) == line;
      OneLine(line);
    } else {
      var r := RowText(es[0]);
      var rest := RowsText(es[1..]);
      RowTextShape(es[0]);
      assert RowsText(es) == "\n" + r + rest;
      assert line + RowsText(es) == line + "\n" + (r + rest);
      SplitAtBreak(line, "\n", r + rest);
      LinesOfRows(r, es[1..]);
      assert RowTexts(es) == [r] + RowTexts(es[1..]);
    }
  }

  lemma {:induction false} ReadyRowsMeanReadyEntries(es: seq<Entry>)
    requires AllWellFormed(es)
    ensures ReadySerials(RowTexts(es)) == ReadyEntries(es)
    decreases |es|
  {
    if es != [] {
      RowTextShape(es[0]);
      assert RowTexts(es)[1..] == RowTexts(es[1..]);
      ReadyRowsMeanReadyEntries(es[1..]);
    }
  }

  /** Parsing what the bridge prints recovers exactly the identifiers in state
      "device", in listing order, whatever the header says. */
  lemma ListingRoundTrip(header: string, es: seq<Entry>, trailer: string)
    requires IsHeader(header) && AllWellFormed(es) && Blank(trailer)
    ensures ParsedDevices(Listing(header, es, trailer)) == ReadyEntries(es)
  {
    var core := header + RowsText(es);
    if es == [] {
      assert core == header;
    } else {
      RowsTextEndsVisible(es);
      assert core[|core| - 1] == RowsText(es)[|RowsText(es)| - 1];
    }
    assert core[0] == header[0];
    StripKeepsCore(core, trailer);
    LinesOfRows(header, es);
    ReadyRowsMeanReadyEntries(es);
  }

  /** The text of two rows, spelled out. */
  lemma TwoRows(e1: Entry, e2: Entry)
    ensures RowsText([e1, e2]) == "\n" + RowText(e1) + ("\n" + RowText(e2))
  {
    assert [e1, e2][1..] == [e2];
    assert [e2][1..] == [];
    assert RowsText([e2]) == "\n" + RowText(e2) + "";
    assert "\n" + RowText(e2) + "" == "\n" + RowText(e2);
  }

  lemma ListingOfTwo(h: string, e1: Entry, e2: Entry, t: string)
    ensures Listing(h, [e1, e2], t) == h + "\n" + e1.serial + "\t" + e1.state + "\n" + e2.serial + "\t" + e2.state + t
  {
    TwoRows(e1, e2);
  }
}
