/**
  `MarkdownBuilder`: an append-only list of lines, one or two per call.
  `showtable` and `publish` add nothing to the list. A "line" here is one
  entry of the list; a heading entry starts and ends with a newline, so it
  prints as three lines.
 */
module MarkdownBuilder {
  import opened Options
  import opened Text
  import opened Trace

  /** The separator between cells of a header line or a row. */
  const CellSeparator := " | "

  /** One column of the rule line under the header line. */
  const RuleCell := "| -------- "

  /** The line `heading` appends: a blank line, `level` hashes, a space, the title, a newline. */
  function HeadingLine(level: nat, title: string): string {
    "\n" + RepeatChar('#', level) + " " + title + "\n"
  }

  function HeaderLine(headers: seq<string>): string {
    Join(CellSeparator, headers)
  }

  function RuleLine(width: nat): string {
    Repeat(RuleCell, width)
  }

  /** `join` raises on a `None`, so a row must hold strings only. */
  predicate AllPresent(values: seq<Option<string>>) {
    forall i :: 0 <= i < |values| ==> values[i].Some?
  }

  function Texts(values: seq<Option<string>>): (r: seq<string>)
    requires AllPresent(values)
    ensures |r| == |values|
    ensures forall i :: 0 <= i < |values| ==> values[i] == Some(r[i])
  {
    seq(|values|, i requires 0 <= i < |values| => values[i].value)
  }

  function RowLine(values: seq<Option<string>>): string
    requires AllPresent(values)
  {
    Join(CellSeparator, Texts(values))
  }

  predicate Accepts(c: Call) {
    c.AddRow? ==> AllPresent(c.values)
  }

  /** The lines one call appends. */
  function Lines(c: Call): seq<string>
    requires Accepts(c)
  {
    match c
    case Heading(level, title) => [HeadingLine(level, title)]
    case Paragraph(text) => [text]
    case CreateTable(headers) => [HeaderLine(headers), RuleLine(|headers|)]
    case AddRow(values) => [RowLine(values)]
    case ShowTable => []
    case Publish => []
  }

  /** How many lines each call adds. */
  function LineCount(c: Call): nat {
    match c
    case Heading(_, _) => 1
    case Paragraph(_) => 1
    case CreateTable(_) => 2
    case AddRow(_) => 1
    case ShowTable => 0
    case Publish => 0
  }

  function LineTotal(t: seq<Call>): nat {
    if |t| == 0 then 0 else LineCount(t[0]) + LineTotal(t[1..])
  }

  predicate AcceptsAll(t: seq<Call>) {
    forall i :: 0 <= i < |t| ==> Accepts(t[i])
  }

  /** One call: the earlier lines stay as they were, and the count grows by the call's line count. */
  function Step(doc: seq<string>, c: Call): (r: seq<string>)
    requires Accepts(c)
    ensures |r| == |doc| + LineCount(c)
    ensures r[..|doc|] == doc
  {
    doc + Lines(c)
  }

  /** A run of calls only ever appends, `LineTotal` lines in all. */
  function Run(doc: seq<string>, t: seq<Call>): (r: seq<string>)
    requires AcceptsAll(t)
    ensures |r| == |doc| + LineTotal(t)
    ensures r[..|doc|] == doc
    decreases |t|
  {
    if |t| == 0 then doc
    else
      assert AcceptsAll(t[1..]) by {
        forall i | 0 <= i < |t[1..]| ensures Accepts(t[1..][i]) {
          assert t[1..][i] == t[i + 1];
        }
      }
      var r := Run(Step(doc, t[0]), t[1..]);
      assert r[..|doc|] == Step(doc, t[0])[..|doc|];
      r
  }

  /** The finished document, one entry per line. */
  function Render(t: seq<Call>): seq<string>
    requires AcceptsAll(t)
  {
    Run([], t)
  }

  lemma {:induction false} RunAppend(doc: seq<string>, a: seq<Call>, b: seq<Call>)
    requires AcceptsAll(a) && AcceptsAll(b)
    ensures AcceptsAll(a + b)
    ensures Run(doc, a + b) == Run(Run(doc, a), b)
    decreases |a|
  {
    assert AcceptsAll(a + b) by {
      forall i | 0 <= i < |a + b| ensures Accepts((a + b)[i]) {
        if i >= |a| {
          assert (a + b)[i] == b[i - |a|];
        }
      }
    }
    if |a| == 0 {
      assert a + b == b;
    } else {
      assert (a + b)[1..] == a[1..] + b;
      assert AcceptsAll(a[1..]) by {
        forall i | 0 <= i < |a[1..]| ensures Accepts(a[1..][i]) {
          assert a[1..][i] == a[i + 1];
        }
      }
      RunAppend(Step(doc, a[0]), a[1..], b);
    }
  }

  /** The number of leading `#` characters. */
  function LeadingHashes(s: string): (n: nat)
    ensures n <= |s|
    ensures forall i :: 0 <= i < n ==> s[i] == '#'
    ensures n < |s| ==> s[n] != '#'
  {
    if |s| > 0 && s[0] == '#' then 1 + LeadingHashes(s[1..]) else 0
  }

  /** Reads a heading line back into its level and title. */
  function ParseHeading(line: string): Option<(nat, string)> {
    if |line| >= 2 && line[0] == '\n' && line[|line| - 1] == '\n' then
      var body := line[1..|line| - 1];
      var n := LeadingHashes(body);
      if n < |body| && body[n] == ' ' then Some((n, body[n + 1..])) else None
    else None
  }

  lemma {:induction false} LeadingHashesOf(n: nat, rest: string)
    requires |rest| > 0 && rest[0] != '#'
    ensures LeadingHashes(RepeatChar('#', n) + rest) == n
  {
    if n > 0 {
      assert (RepeatChar('#', n) + rest)[1..] == RepeatChar('#', n - 1) + rest;
      LeadingHashesOf(n - 1, rest);
    }
  }

  /** A heading line gives back its level and title, whatever the title holds. */
  lemma HeadingReadBack(level: nat, title: string)
    ensures ParseHeading(HeadingLine(level, title)) == Some((level, title))
  {
    var line := HeadingLine(level, title);
    var body := RepeatChar('#', level) + (" " + title);
    assert line == "\n" + body + "\n";
    assert line[1..|line| - 1] == body;
    LeadingHashesOf(level, " " + title);
    assert body[level + 1..] == title;
  }

  /** The rule cell holds exactly one pipe. */
  lemma RuleCellPipes()
    ensures CountChar(RuleCell, '|') == 1
  {
    var tail := " -------- ";
    assert RuleCell == "|" + tail && RuleCell[1..] == tail;
    CountCharAbsent(tail, '|');
  }

  /** The rule line has one pipe and eleven characters per column. */
  lemma RuleColumns(width: nat)
    ensures CountChar(RuleLine(width), '|') == width
    ensures |RuleLine(width)| == 11 * width
  {
    CountCharRepeat(RuleCell, width, '|');
    RuleCellPipes();
    RepeatLength(RuleCell, width);
  }

  /** " | " is marked apart by its pipe when no cell holds one. */
  lemma PipeMarksApart(parts: seq<string>)
    requires forall i :: 0 <= i < |parts| ==> '|' !in parts[i]
    ensures MarksApart(CellSeparator, 1, parts)
  {
  }

  /** A header line splits on " | " back into its headers when no header holds a pipe. */
  lemma HeaderReadBack(headers: seq<string>)
    requires |headers| > 0
    requires forall i :: 0 <= i < |headers| ==> '|' !in headers[i]
    ensures Split(HeaderLine(headers), CellSeparator) == headers
  {
    PipeMarksApart(headers);
    SplitJoin(CellSeparator, headers, 1);
  }

  /** A row line splits on " | " back into its cells when no cell holds a pipe. */
  lemma RowReadBack(values: seq<Option<string>>)
    requires |values| > 0 && AllPresent(values)
    requires forall i :: 0 <= i < |values| ==> '|' !in values[i].value
    ensures Split(RowLine(values), CellSeparator) == Texts(values)
  {
    PipeMarksApart(Texts(values));
    SplitJoin(CellSeparator, Texts(values), 1);
  }

  /** The row lines of a list of rows. */
  function RowLines(rows: seq<seq<Option<string>>>): (r: seq<string>)
    requires forall i :: 0 <= i < |rows| ==> AllPresent(rows[i])
    ensures |r| == |rows|
  {
    seq(|rows|, i requires 0 <= i < |rows| => RowLine(rows[i]))
  }

  lemma {:induction false} RunRows(doc: seq<string>, rows: seq<seq<Option<string>>>)
    requires forall i :: 0 <= i < |rows| ==> AllPresent(rows[i])
    ensures AcceptsAll(Rows(rows))
    ensures Run(doc, Rows(rows)) == doc + RowLines(rows)
    decreases |rows|
  {
    var t := Rows(rows);
    if |rows| > 0 {
      assert t[0] == AddRow(rows[0]) && t[1..] == Rows(rows[1..]);
      RunRows(doc + [RowLine(rows[0])], rows[1..]);
      assert [RowLine(rows[0])] + RowLines(rows[1..]) == RowLines(rows);
    }
  }

  lemma RunOne(doc: seq<string>, c: Call)
    requires Accepts(c)
    ensures AcceptsAll([c]) && Run(doc, [c]) == doc + Lines(c)
  {
    assert [c][1..] == [];
  }

  lemma TableTop(doc: seq<string>, title: string, headers: seq<string>)
    ensures AcceptsAll([Heading(1, title), CreateTable(headers)])
    ensures Run(doc, [Heading(1, title), CreateTable(headers)])
         == doc + [HeadingLine(1, title), HeaderLine(headers), RuleLine(|headers|)]
  {
    RunOne(doc, Heading(1, title));
    RunOne(doc + [HeadingLine(1, title)], CreateTable(headers));
    RunAppend(doc, [Heading(1, title)], [CreateTable(headers)]);
    assert [Heading(1, title)] + [CreateTable(headers)] == [Heading(1, title), CreateTable(headers)];
  }

  /** A table writes its heading, its header and rule lines, then one line per row. */
  lemma TableLines(doc: seq<string>, title: string, headers: seq<string>, rows: seq<seq<Option<string>>>)
    requires forall i :: 0 <= i < |rows| ==> AllPresent(rows[i])
    ensures AcceptsAll(Table(title, headers, rows))
    ensures Run(doc, Table(title, headers, rows))
         == doc + [HeadingLine(1, title), HeaderLine(headers), RuleLine(|headers|)] + RowLines(rows)
  {
    var a := [Heading(1, title), CreateTable(headers)];
    var top := doc + [HeadingLine(1, title), HeaderLine(headers), RuleLine(|headers|)];
    RunRows(top, rows);
    TableTop(doc, title, headers);
    RunAppend(doc, a, Rows(rows));
    RunOne(top + RowLines(rows), ShowTable);
    RunAppend(doc, a + Rows(rows), [ShowTable]);
  }
}
