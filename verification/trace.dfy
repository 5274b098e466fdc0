/**
  The calls a report generator makes on a document builder, and an
  independent reading of a call sequence as a list of sections.
 */
module Trace {
  import opened Options

  /** One call on a document builder. Column-width hints are not modelled. */
  datatype Call =
    | Heading(level: nat, title: string)
    | CreateTable(headers: seq<string>)
    | AddRow(values: seq<Option<string>>)
    | ShowTable
    | Paragraph(text: string)
    | Publish

  /** The calls that add one row for each of `rows`. */
  function Rows(rows: seq<seq<Option<string>>>): (t: seq<Call>)
    ensures |t| == |rows|
    ensures forall i :: 0 <= i < |rows| ==> t[i] == AddRow(rows[i])
  {
    seq(|rows|, i requires 0 <= i < |rows| => AddRow(rows[i]))
  }

  /** A titled table: heading, header row, one call per row, then the closing call. */
  function Table(title: string, headers: seq<string>, rows: seq<seq<Option<string>>>): seq<Call> {
    [Heading(1, title), CreateTable(headers)] + Rows(rows) + [ShowTable]
  }

  /** One table a report is to contain. */
  datatype TableSpec = TableSpec(title: string, headers: seq<string>, rows: seq<seq<Option<string>>>)

  /** The calls for a list of tables, one after the other. */
  function Tables(plan: seq<TableSpec>): seq<Call> {
    if |plan| == 0 then []
    else Table(plan[0].title, plan[0].headers, plan[0].rows) + Tables(plan[1..])
  }

  /** What a reader of the document sees under one heading. */
  datatype Section = Section(title: string, rows: seq<seq<Option<string>>>, paragraphs: seq<string>)

  /**
    One call read into a list of sections: a heading opens a section, rows
    and paragraphs go to the latest one, anything before the first heading
    is not part of any section.
   */
  function OutlineStep(o: seq<Section>, c: Call): seq<Section> {
    match c
    case Heading(_, title) => o + [Section(title, [], [])]
    case AddRow(values) =>
      if |o| == 0 then o
      else o[..|o| - 1] + [o[|o| - 1].(rows := o[|o| - 1].rows + [values])]
    case Paragraph(text) =>
      if |o| == 0 then o
      else o[..|o| - 1] + [o[|o| - 1].(paragraphs := o[|o| - 1].paragraphs + [text])]
    case _ => o
  }

  function OutlineFrom(o: seq<Section>, t: seq<Call>): seq<Section>
    decreases |t|
  {
    if |t| == 0 then o else OutlineFrom(OutlineStep(o, t[0]), t[1..])
  }

  /** The sections of a call sequence, in order. */
  function Outline(t: seq<Call>): seq<Section> {
    OutlineFrom([], t)
  }

  /** Reading `a + b` is reading `a`, then carrying on with `b`. */
  lemma {:induction false} OutlineFromAppend(o: seq<Section>, a: seq<Call>, b: seq<Call>)
    ensures OutlineFrom(o, a + b) == OutlineFrom(OutlineFrom(o, a), b)
    decreases |a|
  {
    if |a| == 0 {
      assert a + b == b;
    } else {
      assert (a + b)[0] == a[0] && (a + b)[1..] == a[1..] + b;
      OutlineFromAppend(OutlineStep(o, a[0]), a[1..], b);
    }
  }

  /** Row calls after a heading all land in that heading's section. */
  lemma {:induction false} OutlineRows(o: seq<Section>, sec: Section, rows: seq<seq<Option<string>>>)
    ensures OutlineFrom(o + [sec], Rows(rows)) == o + [sec.(rows := sec.rows + rows)]
    decreases |rows|
  {
    if |rows| == 0 {
      assert sec.rows + rows == sec.rows;
    } else {
      var t := Rows(rows);
      assert t[1..] == Rows(rows[1..]);
      var sec' := sec.(rows := sec.rows + [rows[0]]);
      assert OutlineStep(o + [sec], t[0]) == o + [sec'];
      OutlineRows(o, sec', rows[1..]);
      assert sec.rows + [rows[0]] + rows[1..] == sec.rows + rows;
    }
  }

  /** A titled table reads as exactly one new section holding its rows. */
  lemma OutlineTable(o: seq<Section>, title: string, headers: seq<string>, rows: seq<seq<Option<string>>>)
    ensures OutlineFrom(o, Table(title, headers, rows)) == o + [Section(title, rows, [])]
  {
    var start := [Heading(1, title), CreateTable(headers)];
    var o1 := o + [Section(title, [], [])];
    assert OutlineFrom(o, start) == o1 by {
      assert start[1..] == [CreateTable(headers)] && start[1..][1..] == [];
      assert OutlineFrom(o, start) == OutlineFrom(o1, start[1..]);
    }
    OutlineFromAppend(o, start + Rows(rows), [ShowTable]);
    OutlineFromAppend(o, start, Rows(rows));
    OutlineRows(o, Section(title, [], []), rows);
    assert [] + rows == rows;
  }

  /** The titles of a list of sections. */
  function Titles(o: seq<Section>): (ts: seq<string>)
    ensures |ts| == |o|
    ensures forall i :: 0 <= i < |o| ==> ts[i] == o[i].title
  {
    seq(|o|, i requires 0 <= i < |o| => o[i].title)
  }

  /** The section a table reads as. */
  function SectionOf(spec: TableSpec): Section {
    Section(spec.title, spec.rows, [])
  }

  function SectionsOf(plan: seq<TableSpec>): (o: seq<Section>)
    ensures |o| == |plan|
    ensures forall i :: 0 <= i < |plan| ==> o[i] == SectionOf(plan[i])
  {
    seq(|plan|, i requires 0 <= i < |plan| => SectionOf(plan[i]))
  }

  /** A list of tables reads as one section per table, in order. */
  lemma {:induction false} OutlineTables(o: seq<Section>, plan: seq<TableSpec>)
    ensures OutlineFrom(o, Tables(plan)) == o + SectionsOf(plan)
    decreases |plan|
  {
    if |plan| == 0 {
      assert o + SectionsOf(plan) == o;
    } else {
      var first := Table(plan[0].title, plan[0].headers, plan[0].rows);
      OutlineFromAppend(o, first, Tables(plan[1..]));
      OutlineTable(o, plan[0].title, plan[0].headers, plan[0].rows);
      OutlineTables(o + [SectionOf(plan[0])], plan[1..]);
      assert o + [SectionOf(plan[0])] + SectionsOf(plan[1..]) == o + SectionsOf(plan);
    }
  }

  /** Every call of a list of tables is a heading, a table call or a row. */
  lemma {:induction false} TablesHaveNoPublish(plan: seq<TableSpec>)
    ensures forall i :: 0 <= i < |Tables(plan)| ==> Tables(plan)[i] != Publish && !Tables(plan)[i].Paragraph?
    decreases |plan|
  {
    if |plan| > 0 {
      TablesHaveNoPublish(plan[1..]);
    }
  }

  /** A report: its tables, one closing paragraph, then `publish`. */
  function Report(plan: seq<TableSpec>, closing: string): seq<Call> {
    Tables(plan) + [Paragraph(closing), Publish]
  }

  /** A report reads as one section per table, the closing paragraph landing in the last one. */
  lemma ReportOutline(plan: seq<TableSpec>, closing: string)
    requires |plan| > 0
    ensures var o := Outline(Report(plan, closing));
      && |o| == |plan|
      && (forall i :: 0 <= i < |plan| - 1 ==> o[i] == SectionOf(plan[i]))
      && o[|o| - 1] == SectionOf(plan[|plan| - 1]).(paragraphs := [closing])
  {
    var z := [Paragraph(closing), Publish];
    var o := SectionsOf(plan);
    var last := o[|o| - 1];
    assert Outline(Report(plan, closing)) == OutlineFrom([], Tables(plan) + z);
    OutlineFromAppend([], Tables(plan), z);
    OutlineTables([], plan);
    assert [] + o == o;
    assert OutlineFrom([], Tables(plan) + z) == OutlineFrom(o, z);
    OutlineClosing(o, closing);
    assert last.paragraphs + [closing] == [closing];
    var r := o[..|o| - 1] + [last.(paragraphs := [closing])];
    assert Outline(Report(plan, closing)) == r;
    ReplaceLast(o, last.(paragraphs := [closing]));
  }

  /** Replacing the last element keeps every earlier one. */
  lemma ReplaceLast<T>(o: seq<T>, x: T)
    requires |o| > 0
    ensures |o[..|o| - 1] + [x]| == |o|
    ensures forall i :: 0 <= i < |o| - 1 ==> (o[..|o| - 1] + [x])[i] == o[i]
  {
    var r := o[..|o| - 1] + [x];
    forall i | 0 <= i < |o| - 1 ensures r[i] == o[i] {
      assert r[i] == o[..|o| - 1][i];
    }
  }

  /** The closing paragraph lands in the last section and `publish` reads as nothing. */
  lemma OutlineClosing(o: seq<Section>, closing: string)
    requires |o| > 0
    ensures OutlineFrom(o, [Paragraph(closing), Publish])
         == o[..|o| - 1] + [o[|o| - 1].(paragraphs := o[|o| - 1].paragraphs + [closing])]
  {
    var z := [Paragraph(closing), Publish];
    assert z[1..] == [Publish] && z[1..][1..] == [];
    var o1 := OutlineStep(o, z[0]);
    assert OutlineFrom(o, z) == OutlineFrom(o1, z[1..]);
    assert OutlineFrom(o1, z[1..]) == OutlineFrom(OutlineStep(o1, Publish), []);
  }

  /** The closing paragraph is the second-to-last call and `publish` the last and only one. */
  lemma ReportEnds(plan: seq<TableSpec>, closing: string)
    ensures var t := Report(plan, closing);
      && |t| >= 2
      && t[|t| - 1] == Publish
      && t[|t| - 2] == Paragraph(closing)
      && forall i :: 0 <= i < |t| - 1 ==> t[i] != Publish
  {
    TablesHaveNoPublish(plan);
  }

  /** The titles of a report are the titles of its tables. */
  lemma ReportTitles(plan: seq<TableSpec>, closing: string)
    requires |plan| > 0
    ensures Titles(Outline(Report(plan, closing))) == Titles(SectionsOf(plan))
  {
    ReportOutline(plan, closing);
  }
}
