/**
  The generator composed with the builders: what the finished JSON, HTML
  and Markdown documents of a report contain, stated over the SBOM.
 */
module Reports {
  import opened Options
  import opened Seqs
  import opened Sbom
  import opened Ntia
  import opened Licences
  import opened Trace
  import opened Generator
  import GeneratorProps
  import JsonBuilder
  import HtmlBuilder
  import MarkdownBuilder
  import Text

  /** Every table has a non-empty title and rows no wider than its header list. */
  predicate WellFormed(plan: seq<TableSpec>) {
    forall i :: 0 <= i < |plan| ==> plan[i].title != "" && Fits(plan[i])
  }

  predicate Fits(spec: TableSpec) {
    forall j :: 0 <= j < |spec.rows| ==> |spec.rows[j]| <= |spec.headers|
  }

  /** No two tables share a title. */
  predicate DistinctTitles(plan: seq<TableSpec>) {
    forall a, b :: 0 <= a < b < |plan| ==> plan[a].title != plan[b].title
  }

  lemma PlainAppend(a: seq<Call>, b: seq<Call>)
    requires JsonBuilder.Plain(a) && JsonBuilder.Plain(b)
    ensures JsonBuilder.Plain(a + b)
  {
    forall i | 0 <= i < |a + b|
      ensures (a + b)[i] != Publish && ((a + b)[i].Heading? ==> (a + b)[i].level == 1 && (a + b)[i].title != "")
    {
      if i >= |a| {
        assert (a + b)[i] == b[i - |a|];
      }
    }
  }

  lemma {:induction false} TablesPlain(plan: seq<TableSpec>)
    requires WellFormed(plan)
    ensures JsonBuilder.Plain(Tables(plan))
    decreases |plan|
  {
    if |plan| > 0 {
      var spec := plan[0];
      var t := Table(spec.title, spec.headers, spec.rows);
      assert JsonBuilder.Plain(t) by {
        forall i | 0 <= i < |t| ensures t[i] != Publish && (t[i].Heading? ==> t[i].level == 1 && t[i].title != "") {
          if 2 <= i < 2 + |spec.rows| {
            assert t[i] == Rows(spec.rows)[i - 2];
          }
        }
      }
      assert WellFormed(plan[1..]) by {
        forall i | 0 <= i < |plan[1..]| ensures plan[1..][i].title != "" && Fits(plan[1..][i]) {
          assert plan[1..][i] == plan[i + 1];
        }
      }
      TablesPlain(plan[1..]);
      PlainAppend(t, Tables(plan[1..]));
    }
  }

  lemma {:induction false} FitsRows(w: nat, rows: seq<seq<Option<string>>>, rest: seq<Call>)
    requires forall i :: 0 <= i < |rows| ==> |rows[i]| <= w
    requires JsonBuilder.FitsFrom(w, rest)
    ensures JsonBuilder.FitsFrom(w, Rows(rows) + rest)
    decreases |rows|
  {
    if |rows| > 0 {
      var t := Rows(rows) + rest;
      assert t[0] == AddRow(rows[0]);
      assert t[1..] == Rows(rows[1..]) + rest;
      FitsRows(w, rows[1..], rest);
    } else {
      assert Rows(rows) + rest == rest;
    }
  }

  lemma FitsTable(w: nat, spec: TableSpec, rest: seq<Call>)
    requires Fits(spec)
    requires JsonBuilder.FitsFrom(|spec.headers|, rest)
    ensures JsonBuilder.FitsFrom(w, Table(spec.title, spec.headers, spec.rows) + rest)
  {
    var h := |spec.headers|;
    var tail := [ShowTable] + rest;
    assert tail[1..] == rest;
    FitsRows(h, spec.rows, tail);
    var t := Table(spec.title, spec.headers, spec.rows) + rest;
    assert t == [Heading(1, spec.title), CreateTable(spec.headers)] + (Rows(spec.rows) + tail);
    assert t[1..] == [CreateTable(spec.headers)] + (Rows(spec.rows) + tail);
    assert t[1..][1..] == Rows(spec.rows) + tail;
  }

  /** The calls of well-formed tables followed by any paragraph fit the builder from any starting width. */
  lemma {:induction false} FitsTables(w: nat, plan: seq<TableSpec>, closing: string)
    requires WellFormed(plan)
    ensures JsonBuilder.FitsFrom(w, Tables(plan) + [Paragraph(closing)])
    decreases |plan|
  {
    if |plan| == 0 {
      assert Tables(plan) + [Paragraph(closing)] == [Paragraph(closing)];
      assert [Paragraph(closing)][1..] == [];
    } else {
      var spec := plan[0];
      assert WellFormed(plan[1..]) by {
        forall i | 0 <= i < |plan[1..]| ensures plan[1..][i].title != "" && Fits(plan[1..][i]) {
          assert plan[1..][i] == plan[i + 1];
        }
      }
      FitsTables(|spec.headers|, plan[1..], closing);
      FitsTable(w, spec, Tables(plan[1..]) + [Paragraph(closing)]);
      assert Tables(plan) + [Paragraph(closing)]
          == Table(spec.title, spec.headers, spec.rows) + (Tables(plan[1..]) + [Paragraph(closing)]);
    }
  }

  /** A report reads as the same sections before its `publish` as with it. */
  lemma OutlineBeforePublish(plan: seq<TableSpec>, closing: string)
    ensures Report(plan, closing) == (Tables(plan) + [Paragraph(closing)]) + [Publish]
    ensures Outline(Tables(plan) + [Paragraph(closing)]) == Outline(Report(plan, closing))
  {
    var body := Tables(plan) + [Paragraph(closing)];
    OutlineFromAppend([], body, [Publish]);
    assert [Publish][1..] == [];
  }

  /**
    For well-formed tables with distinct titles, the JSON document of a
    report has one key per table title, each holding one object per row of
    that table.
   */
  lemma JsonOfReport(plan: seq<TableSpec>, closing: string)
    requires |plan| > 0 && WellFormed(plan) && DistinctTitles(plan)
    ensures JsonBuilder.Runs(JsonBuilder.Init, Report(plan, closing))
    ensures JsonBuilder.Render(Report(plan, closing)).Keys == set i | 0 <= i < |plan| :: plan[i].title
    ensures forall i :: 0 <= i < |plan| ==>
      |JsonBuilder.Render(Report(plan, closing))[plan[i].title]| == |plan[i].rows|
  {
    var body := Tables(plan) + [Paragraph(closing)];
    TablesPlain(plan);
    assert JsonBuilder.Plain([Paragraph(closing)]);
    PlainAppend(Tables(plan), [Paragraph(closing)]);
    FitsTables(0, plan, closing);
    OutlineBeforePublish(plan, closing);
    ReportOutline(plan, closing);
    JsonBuilder.KeysAreTitles(body);
    var o := Outline(body);
    assert forall i :: 0 <= i < |plan| ==> o[i].title == plan[i].title && o[i].rows == plan[i].rows;
    assert (set i | 0 <= i < |o| :: o[i].title) == (set i | 0 <= i < |plan| :: plan[i].title);
  }

  lemma WellFormedAppend(a: seq<TableSpec>, b: seq<TableSpec>)
    requires WellFormed(a) && WellFormed(b)
    ensures WellFormed(a + b)
  {
    forall i | 0 <= i < |a + b| ensures (a + b)[i].title != "" && Fits((a + b)[i]) {
      if i >= |a| {
        assert (a + b)[i] == b[i - |a|];
      }
    }
  }

  lemma SummaryTableFits(s: Sbom, filename: string)
    ensures WellFormed([SummaryTable(s, filename)])
  {
    GeneratorProps.SummaryRowsFacts(s, filename);
  }

  lemma ClosingTablesFit(s: Sbom)
    ensures WellFormed([LicenceTable(s), NtiaTable(Assess(s))])
  {
    LicenceTableFits(LicenceList(s));
    NtiaTableFits(Assess(s));
    WellFormedPair(LicenceTable(s), NtiaTable(Assess(s)));
  }

  lemma WellFormedPair(a: TableSpec, b: TableSpec)
    requires a.title != "" && Fits(a) && b.title != "" && Fits(b)
    ensures WellFormed([a, b])
  {
  }

  lemma LicenceTableFits(ls: seq<string>)
    ensures Fits(TableSpec(LicenceTitle, ["License", "Count"], Map(LicenceRow, Tabulate(ls))))
  {
  }

  lemma NtiaTableFits(v: Verdict)
    ensures Fits(NtiaTable(v))
  {
    var n := NtiaTable(v);
    forall j | 0 <= j < |n.rows| ensures |n.rows[j]| <= |n.headers| {
      assert n.rows[j] == [Some(NtiaLabels[j]), Some(Text.BoolToString(Flags(v)[j]))];
    }
  }

  lemma InventoryTablesFit(s: Sbom)
    ensures WellFormed(Optional(|s.files| > 0, FileTable(s.files)) + Optional(|s.packages| > 0, PackageTable(s.packages)))
  {
    WellFormedAppend(Optional(|s.files| > 0, FileTable(s.files)), Optional(|s.packages| > 0, PackageTable(s.packages)));
  }

  /** Every table of a report is titled and no row is wider than its headers. */
  lemma PlanWellFormed(s: Sbom, filename: string)
    ensures WellFormed(Plan(s, filename))
  {
    var first := [SummaryTable(s, filename)];
    var middle := Optional(|s.files| > 0, FileTable(s.files)) + Optional(|s.packages| > 0, PackageTable(s.packages));
    var last := [LicenceTable(s), NtiaTable(Assess(s))];
    SummaryTableFits(s, filename);
    InventoryTablesFit(s);
    ClosingTablesFit(s);
    WellFormedThree(first, middle, last);
    GeneratorProps.PlanRegrouped(s, filename);
  }

  lemma WellFormedThree(a: seq<TableSpec>, b: seq<TableSpec>, c: seq<TableSpec>)
    requires WellFormed(a) && WellFormed(b) && WellFormed(c)
    ensures WellFormed(a + b + c)
  {
    WellFormedAppend(a, b);
    WellFormedAppend(a + b, c);
  }

  /** The section titles a report can have, in order. */
  function ExpectedTitles(hasFiles: bool, hasPackages: bool): seq<string> {
    [SummaryTitle]
    + (if hasFiles then [FileTitle] else [])
    + (if hasPackages then [PackageTitle] else [])
    + [LicenceTitle, NtiaTitle]
  }

  lemma ExpectedTitlesDistinct(hasFiles: bool, hasPackages: bool)
    ensures var ts := ExpectedTitles(hasFiles, hasPackages);
      forall a, b :: 0 <= a < b < |ts| ==> ts[a] != ts[b]
  {
    var ts := ExpectedTitles(hasFiles, hasPackages);
    assert SummaryTitle[0] == 'S' && FileTitle[0] == 'F' && PackageTitle[0] == 'P';
    assert LicenceTitle[0] == 'L' && NtiaTitle[0] == 'N';
    forall a, b | 0 <= a < b < |ts| ensures ts[a] != ts[b] {
      assert ts[a][0] != ts[b][0];
    }
  }

  /** The report's tables, titled in the fixed order, hence with distinct titles. */
  lemma PlanTitled(s: Sbom, filename: string)
    ensures var plan := Plan(s, filename);
      var ts := ExpectedTitles(|s.files| > 0, |s.packages| > 0);
      && |plan| == |ts|
      && (forall i :: 0 <= i < |plan| ==> plan[i].title == ts[i])
      && DistinctTitles(plan)
  {
    GeneratorProps.PlanTitles(s, filename);
    ExpectedTitlesDistinct(|s.files| > 0, |s.packages| > 0);
    TitledBy(Plan(s, filename), ExpectedTitles(|s.files| > 0, |s.packages| > 0));
  }

  /** Tables whose titles read as a list of distinct strings have distinct titles. */
  lemma TitledBy(plan: seq<TableSpec>, ts: seq<string>)
    requires Titles(SectionsOf(plan)) == ts
    requires forall a, b :: 0 <= a < b < |ts| ==> ts[a] != ts[b]
    ensures |plan| == |ts|
    ensures forall i :: 0 <= i < |plan| ==> plan[i].title == ts[i]
    ensures DistinctTitles(plan)
  {
    assert forall i :: 0 <= i < |plan| ==> plan[i].title == Titles(SectionsOf(plan))[i];
  }

  /** Where the file and package tables sit in a report. */
  lemma PlanInventory(s: Sbom, filename: string)
    ensures var plan := Plan(s, filename);
      && (|s.files| > 0 ==> |plan| > 1 && plan[1] == FileTable(s.files))
      && (|s.packages| > 0 ==>
            var k := if |s.files| > 0 then 2 else 1;
            |plan| > k && plan[k] == PackageTable(s.packages))
  {
    GeneratorProps.PlanRegrouped(s, filename);
    InventoryAt(SummaryTable(s, filename), |s.files| > 0, FileTable(s.files),
      |s.packages| > 0, PackageTable(s.packages), [LicenceTable(s), NtiaTable(Assess(s))]);
  }

  lemma InventoryAt(first: TableSpec, hasF: bool, f: TableSpec, hasP: bool, p: TableSpec, last: seq<TableSpec>)
    ensures var plan := [first] + (Optional(hasF, f) + Optional(hasP, p)) + last;
      && (hasF ==> |plan| > 1 && plan[1] == f)
      && (hasP ==> var k := if hasF then 2 else 1; |plan| > k && plan[k] == p)
  {
  }

  function TitleSet(ts: seq<string>): set<string> {
    set t | t in ts
  }

  lemma ExpectedKeys(hasFiles: bool, hasPackages: bool)
    ensures TitleSet(ExpectedTitles(hasFiles, hasPackages))
         == {SummaryTitle, LicenceTitle, NtiaTitle}
          + (if hasFiles then {FileTitle} else {})
          + (if hasPackages then {PackageTitle} else {})
  {
  }

  /** With the titles listed as `ts`, the keys are the elements of `ts`. */
  lemma KeysFromTitles(plan: seq<TableSpec>, closing: string, ts: seq<string>)
    requires |plan| > 0 && WellFormed(plan) && DistinctTitles(plan)
    requires |plan| == |ts| && forall i :: 0 <= i < |plan| ==> plan[i].title == ts[i]
    ensures JsonBuilder.Runs(JsonBuilder.Init, Report(plan, closing))
    ensures JsonBuilder.Render(Report(plan, closing)).Keys == TitleSet(ts)
  {
    JsonOfReport(plan, closing);
    forall t | t in ts ensures t in (set i | 0 <= i < |plan| :: plan[i].title) {
      var i :| 0 <= i < |ts| && ts[i] == t;
      assert plan[i].title == t;
    }
  }

  /** The key set of a report's JSON document is the set of its table titles. */
  lemma JsonKeySet(s: Sbom, filename: string)
    ensures JsonBuilder.Runs(JsonBuilder.Init, Generate(s, filename))
    ensures JsonBuilder.Render(Generate(s, filename)).Keys
         == TitleSet(ExpectedTitles(|s.files| > 0, |s.packages| > 0))
  {
    PlanWellFormed(s, filename);
    PlanTitled(s, filename);
    GeneratorProps.PlanEnds(s, filename);
    KeysFromTitles(Plan(s, filename), ConformanceLine(Assess(s)), ExpectedTitles(|s.files| > 0, |s.packages| > 0));
  }

  /** The arrays of a report's JSON document have one object per row of their table. */
  lemma JsonSizes(s: Sbom, filename: string)
    ensures JsonBuilder.Runs(JsonBuilder.Init, Generate(s, filename))
    ensures var doc := JsonBuilder.Render(Generate(s, filename));
      && SummaryTitle in doc && |doc[SummaryTitle]| == 8 + |s.document.creators|
      && LicenceTitle in doc && |doc[LicenceTitle]| == |Tabulate(LicenceList(s))|
      && NtiaTitle in doc && |doc[NtiaTitle]| == 5
      && (|s.files| > 0 ==> FileTitle in doc && |doc[FileTitle]| == |s.files|)
      && (|s.packages| > 0 ==> PackageTitle in doc && |doc[PackageTitle]| == |s.packages|)
  {
    var plan := Plan(s, filename);
    var closing := ConformanceLine(Assess(s));
    PlanWellFormed(s, filename);
    PlanTitled(s, filename);
    GeneratorProps.PlanEnds(s, filename);
    GeneratorProps.SummaryRowsFacts(s, filename);
    PlanInventory(s, filename);
    JsonOfReport(plan, closing);
    SizeOfTable(plan, closing, 0);
    SizeOfTable(plan, closing, |plan| - 2);
    SizeOfTable(plan, closing, |plan| - 1);
    if |s.files| > 0 {
      SizeOfTable(plan, closing, 1);
    }
    if |s.packages| > 0 {
      SizeOfTable(plan, closing, if |s.files| > 0 then 2 else 1);
    }
  }

  /** Each table of a report is a key of its JSON document, holding one object per row. */
  lemma SizeOfTable(plan: seq<TableSpec>, closing: string, i: nat)
    requires |plan| > 0 && WellFormed(plan) && DistinctTitles(plan)
    requires i < |plan|
    ensures JsonBuilder.Runs(JsonBuilder.Init, Report(plan, closing))
    ensures var doc := JsonBuilder.Render(Report(plan, closing));
      plan[i].title in doc && |doc[plan[i].title]| == |plan[i].rows|
  {
    JsonOfReport(plan, closing);
    assert plan[i].title in (set j | 0 <= j < |plan| :: plan[j].title);
  }

  /**
    The JSON document of a report has exactly the keys SBOM Summary,
    License Summary and NTIA Summary, plus File Summary when there are
    files and Package Summary when there are packages.
   */
  lemma JsonKeys(s: Sbom, filename: string)
    ensures JsonBuilder.Runs(JsonBuilder.Init, Generate(s, filename))
    ensures JsonBuilder.Render(Generate(s, filename)).Keys
         == {SummaryTitle, LicenceTitle, NtiaTitle}
          + (if |s.files| > 0 then {FileTitle} else {})
          + (if |s.packages| > 0 then {PackageTitle} else {})
  {
    JsonKeySet(s, filename);
    ExpectedKeys(|s.files| > 0, |s.packages| > 0);
  }

  /** The number of rows over all tables. */
  function RowTotal(plan: seq<TableSpec>): nat {
    if |plan| == 0 then 0 else |plan[0].rows| + RowTotal(plan[1..])
  }

  lemma {:induction false} RowTotalAppend(a: seq<TableSpec>, b: seq<TableSpec>)
    ensures RowTotal(a + b) == RowTotal(a) + RowTotal(b)
    decreases |a|
  {
    if |a| == 0 {
      assert a + b == b;
    } else {
      assert (a + b)[1..] == a[1..] + b;
      RowTotalAppend(a[1..], b);
    }
  }

  lemma {:induction false} TablesCensus(plan: seq<TableSpec>)
    ensures HtmlBuilder.CensusOf(Tables(plan)) == HtmlBuilder.Census(|plan|, RowTotal(plan), |plan|)
    decreases |plan|
  {
    if |plan| > 0 {
      var spec := plan[0];
      HtmlBuilder.TableCensus(spec.title, spec.headers, spec.rows);
      TablesCensus(plan[1..]);
      HtmlBuilder.CensusAppend(Table(spec.title, spec.headers, spec.rows), Tables(plan[1..]));
    }
  }

  /** A report opens and closes one table per table of its plan, and adds one row per row. */
  lemma ReportCensus(plan: seq<TableSpec>, closing: string)
    ensures HtmlBuilder.CensusOf(Report(plan, closing)) == HtmlBuilder.Census(|plan|, RowTotal(plan), |plan|)
  {
    TablesCensus(plan);
    var z := [Paragraph(closing), Publish];
    assert z[1..] == [Publish] && z[1..][1..] == [];
    assert HtmlBuilder.CensusOf(z[1..]) == HtmlBuilder.Census(0, 0, 0);
    assert HtmlBuilder.CensusOf(z) == HtmlBuilder.Census(0, 0, 0);
    assert Report(plan, closing) == Tables(plan) + z;
    HtmlBuilder.CensusAppend(Tables(plan), z);
  }

  /**
    The HTML of a report holds as many table openers as closers, one pair
    per section, and every row closer is matched by a row or head opener.
   */
  lemma HtmlBalanced(s: Sbom, filename: string)
    ensures var frags := multiset(HtmlBuilder.Render(Generate(s, filename)));
      var sections := 3 + (if |s.files| > 0 then 1 else 0) + (if |s.packages| > 0 then 1 else 0);
      && frags[HtmlBuilder.TableOpen] == sections
      && frags[HtmlBuilder.TableClose] == sections
      && frags[HtmlBuilder.RowOpen] + frags[HtmlBuilder.HeadOpen] == frags[HtmlBuilder.RowClose]
  {
    GeneratorProps.PlanEnds(s, filename);
    ReportCensus(Plan(s, filename), ConformanceLine(Assess(s)));
    HtmlBuilder.Tags(Generate(s, filename));
  }

  /** Every row of every table holds strings only, as the Markdown builder needs. */
  predicate Complete(plan: seq<TableSpec>) {
    forall i :: 0 <= i < |plan| ==> forall j :: 0 <= j < |plan[i].rows| ==> MarkdownBuilder.AllPresent(plan[i].rows[j])
  }

  lemma {:induction false} LineTotalAppend(a: seq<Call>, b: seq<Call>)
    ensures MarkdownBuilder.LineTotal(a + b) == MarkdownBuilder.LineTotal(a) + MarkdownBuilder.LineTotal(b)
    decreases |a|
  {
    if |a| == 0 {
      assert a + b == b;
    } else {
      assert (a + b)[0] == a[0] && (a + b)[1..] == a[1..] + b;
      LineTotalAppend(a[1..], b);
    }
  }

  lemma {:induction false} LineTotalRows(rows: seq<seq<Option<string>>>)
    ensures MarkdownBuilder.LineTotal(Rows(rows)) == |rows|
    decreases |rows|
  {
    if |rows| > 0 {
      assert Rows(rows)[1..] == Rows(rows[1..]);
      LineTotalRows(rows[1..]);
    }
  }

  lemma {:induction false} TablesLines(plan: seq<TableSpec>)
    ensures MarkdownBuilder.LineTotal(Tables(plan)) == 3 * |plan| + RowTotal(plan)
    decreases |plan|
  {
    if |plan| > 0 {
      var spec := plan[0];
      var top := [Heading(1, spec.title), CreateTable(spec.headers)];
      assert top[1..] == [CreateTable(spec.headers)] && top[1..][1..] == [];
      assert MarkdownBuilder.LineTotal(top[1..]) == 2;
      assert MarkdownBuilder.LineTotal(top) == 3;
      assert [ShowTable][1..] == [];
      LineTotalRows(spec.rows);
      LineTotalAppend(top, Rows(spec.rows));
      LineTotalAppend(top + Rows(spec.rows), [ShowTable]);
      TablesLines(plan[1..]);
      LineTotalAppend(Table(spec.title, spec.headers, spec.rows), Tables(plan[1..]));
    }
  }

  lemma {:induction false} TablesAccepted(plan: seq<TableSpec>)
    requires Complete(plan)
    ensures MarkdownBuilder.AcceptsAll(Tables(plan))
    decreases |plan|
  {
    if |plan| > 0 {
      var spec := plan[0];
      var t := Table(spec.title, spec.headers, spec.rows);
      assert MarkdownBuilder.AcceptsAll(t) by {
        forall i | 0 <= i < |t| ensures MarkdownBuilder.Accepts(t[i]) {
          if 2 <= i < 2 + |spec.rows| {
            assert t[i] == Rows(spec.rows)[i - 2];
          }
        }
      }
      assert Complete(plan[1..]) by {
        forall i | 0 <= i < |plan[1..]| ensures forall j :: 0 <= j < |plan[1..][i].rows| ==> MarkdownBuilder.AllPresent(plan[1..][i].rows[j]) {
          assert plan[1..][i] == plan[i + 1];
        }
      }
      TablesAccepted(plan[1..]);
      forall i | 0 <= i < |t + Tables(plan[1..])| ensures MarkdownBuilder.Accepts((t + Tables(plan[1..]))[i]) {
        if i >= |t| {
          assert (t + Tables(plan[1..]))[i] == Tables(plan[1..])[i - |t|];
        }
      }
    }
  }

  /**
    A report in Markdown has three lines per table (heading, header line,
    rule line), one per row, and the closing paragraph as its last line.
   */
  lemma MarkdownOfReport(plan: seq<TableSpec>, closing: string)
    requires Complete(plan)
    ensures MarkdownBuilder.AcceptsAll(Report(plan, closing))
    ensures var doc := MarkdownBuilder.Render(Report(plan, closing));
      && |doc| == 3 * |plan| + RowTotal(plan) + 1
      && doc[|doc| - 1] == closing
  {
    var z := [Paragraph(closing), Publish];
    TablesAccepted(plan);
    assert MarkdownBuilder.AcceptsAll(Report(plan, closing)) by {
      forall i | 0 <= i < |Report(plan, closing)| ensures MarkdownBuilder.Accepts(Report(plan, closing)[i]) {
        if i >= |Tables(plan)| {
          assert Report(plan, closing)[i] == z[i - |Tables(plan)|];
        }
      }
    }
    assert MarkdownBuilder.AcceptsAll(z);
    TablesLines(plan);
    var before := MarkdownBuilder.Run([], Tables(plan));
    MarkdownBuilder.RunAppend([], Tables(plan), z);
    assert z[1..] == [Publish] && z[1..][1..] == [];
    assert MarkdownBuilder.Run(before, z) == before + [closing];
  }

  /**
    What the Markdown builder needs of an SBOM: every value the report puts
    in a cell is present, since joining a `None` raises.
   */
  predicate MarkdownReady(s: Sbom) {
    && s.document.sbomType.Some?
    && s.document.version.Some?
    && s.document.name.Some?
    && s.document.created.Some?
    && (forall i :: 0 <= i < |s.files| ==> s.files[i].name.Some?)
    && (forall i :: 0 <= i < |s.packages| ==>
          s.packages[i].name.Some? && s.packages[i].version.Some? && s.packages[i].supplier.Some?)
  }

  lemma CompleteAppend(a: seq<TableSpec>, b: seq<TableSpec>)
    requires Complete(a) && Complete(b)
    ensures Complete(a + b)
  {
    forall i | 0 <= i < |a + b| ensures forall j :: 0 <= j < |(a + b)[i].rows| ==> MarkdownBuilder.AllPresent((a + b)[i].rows[j]) {
      if i >= |a| {
        assert (a + b)[i] == b[i - |a|];
      }
    }
  }

  lemma SummaryComplete(s: Sbom, filename: string)
    requires MarkdownReady(s)
    ensures Complete([SummaryTable(s, filename)])
  {
    var rows := SummaryRows(s, filename);
    GeneratorProps.SummaryRowsFacts(s, filename);
    var n := |s.document.creators|;
    forall j | 0 <= j < |rows| ensures MarkdownBuilder.AllPresent(rows[j]) {
      if 4 <= j < 4 + n {
        assert rows[j] == CreatorRow(s.document.creators[j - 4]);
      }
    }
  }

  lemma InventoryComplete(s: Sbom)
    requires MarkdownReady(s)
    ensures Complete(Optional(|s.files| > 0, FileTable(s.files)) + Optional(|s.packages| > 0, PackageTable(s.packages)))
  {
    assert Complete([FileTable(s.files)]);
    assert Complete([PackageTable(s.packages)]);
    CompleteAppend(Optional(|s.files| > 0, FileTable(s.files)), Optional(|s.packages| > 0, PackageTable(s.packages)));
  }

  lemma PlanComplete(s: Sbom, filename: string)
    requires MarkdownReady(s)
    ensures Complete(Plan(s, filename))
  {
    var first := [SummaryTable(s, filename)];
    var middle := Optional(|s.files| > 0, FileTable(s.files)) + Optional(|s.packages| > 0, PackageTable(s.packages));
    var last := [LicenceTable(s), NtiaTable(Assess(s))];
    SummaryComplete(s, filename);
    InventoryComplete(s);
    ClosingComplete(s);
    CompleteThree(first, middle, last);
    GeneratorProps.PlanRegrouped(s, filename);
  }

  lemma ClosingComplete(s: Sbom)
    ensures Complete([LicenceTable(s), NtiaTable(Assess(s))])
  {
    LicenceComplete(LicenceList(s));
    NtiaComplete(Assess(s));
    CompletePair(LicenceTable(s), NtiaTable(Assess(s)));
  }

  lemma LicenceComplete(ls: seq<string>)
    ensures Complete([TableSpec(LicenceTitle, ["License", "Count"], Map(LicenceRow, Tabulate(ls)))])
  {
  }

  lemma NtiaComplete(v: Verdict)
    ensures Complete([NtiaTable(v)])
  {
    var n := NtiaTable(v);
    forall j | 0 <= j < |n.rows| ensures MarkdownBuilder.AllPresent(n.rows[j]) {
      assert n.rows[j] == [Some(NtiaLabels[j]), Some(Text.BoolToString(Flags(v)[j]))];
    }
  }

  lemma CompletePair(a: TableSpec, b: TableSpec)
    requires Complete([a]) && Complete([b])
    ensures Complete([a, b])
  {
    CompleteAppend([a], [b]);
    assert [a] + [b] == [a, b];
  }

  lemma CompleteThree(a: seq<TableSpec>, b: seq<TableSpec>, c: seq<TableSpec>)
    requires Complete(a) && Complete(b) && Complete(c)
    ensures Complete(a + b + c)
  {
    CompleteAppend(a, b);
    CompleteAppend(a + b, c);
  }

  lemma OptionalRows(present: bool, spec: TableSpec)
    ensures RowTotal(Optional(present, spec)) == if present then |spec.rows| else 0
  {
    if present {
      assert Optional(present, spec)[1..] == [];
    }
  }

  /** The rows of a report: the summary, one per file and package, one per distinct licence, five checks. */
  lemma PlanRowTotal(s: Sbom, filename: string)
    ensures RowTotal(Plan(s, filename))
         == (8 + |s.document.creators|)
          + (if |s.files| > 0 then |s.files| else 0)
          + (if |s.packages| > 0 then |s.packages| else 0)
          + |Tabulate(LicenceList(s))|
          + 5
  {
    var f := Optional(|s.files| > 0, FileTable(s.files));
    var p := Optional(|s.packages| > 0, PackageTable(s.packages));
    var first := [SummaryTable(s, filename)];
    var last := [LicenceTable(s), NtiaTable(Assess(s))];
    GeneratorProps.SummaryRowsFacts(s, filename);
    GeneratorProps.PlanRegrouped(s, filename);
    OptionalRows(|s.files| > 0, FileTable(s.files));
    OptionalRows(|s.packages| > 0, PackageTable(s.packages));
    RowTotalShape(SummaryTable(s, filename), f, p, LicenceTable(s), NtiaTable(Assess(s)));
  }

  lemma RowTotalShape(first: TableSpec, f: seq<TableSpec>, p: seq<TableSpec>, licence: TableSpec, ntia: TableSpec)
    ensures RowTotal([first] + (f + p) + [licence, ntia])
         == |first.rows| + RowTotal(f) + RowTotal(p) + |licence.rows| + |ntia.rows|
  {
    var a, z := [first], [licence, ntia];
    RowTotalAppend(f, p);
    RowTotalAppend(a, f + p);
    RowTotalAppend(a + (f + p), z);
    assert a[1..] == [];
    assert z[1..][1..] == [];
  }

  /**
    The Markdown of a report has three lines per section plus one per row,
    then the closing line, counted section by section in `MarkdownLineCount`.
   */
  lemma MarkdownLength(s: Sbom, filename: string)
    requires MarkdownReady(s)
    ensures MarkdownBuilder.AcceptsAll(Generate(s, filename))
    ensures |MarkdownBuilder.Render(Generate(s, filename))| == MarkdownLineCount(s)
  {
    PlanComplete(s, filename);
    MarkdownLines(s, filename);
    MarkdownSized(Plan(s, filename), ConformanceLine(Assess(s)), Generate(s, filename), MarkdownLineCount(s));
  }

  lemma MarkdownSized(plan: seq<TableSpec>, closing: string, t: seq<Call>, n: nat)
    requires Complete(plan) && t == Report(plan, closing)
    requires n == 3 * |plan| + RowTotal(plan) + 1
    ensures MarkdownBuilder.AcceptsAll(t)
    ensures |MarkdownBuilder.Render(t)| == n
  {
    MarkdownOfReport(plan, closing);
  }

  /** The last line of a report's Markdown is the NTIA conformance line. */
  lemma MarkdownLastLine(s: Sbom, filename: string)
    requires MarkdownReady(s)
    ensures MarkdownBuilder.AcceptsAll(Generate(s, filename))
    ensures var doc := MarkdownBuilder.Render(Generate(s, filename));
      |doc| > 0 && doc[|doc| - 1] == ConformanceLine(Assess(s))
  {
    var closing := ConformanceLine(Assess(s));
    PlanComplete(s, filename);
    LastLineOfReport(Plan(s, filename), closing, Generate(s, filename));
  }

  lemma LastLineOfReport(plan: seq<TableSpec>, closing: string, t: seq<Call>)
    requires Complete(plan) && t == Report(plan, closing)
    ensures MarkdownBuilder.AcceptsAll(t)
    ensures var doc := MarkdownBuilder.Render(t);
      |doc| > 0 && doc[|doc| - 1] == closing
  {
    MarkdownOfReport(plan, closing);
  }

  /** The number of Markdown lines of a report, section by section. */
  function MarkdownLineCount(s: Sbom): nat {
    (11 + |s.document.creators|)
    + (if |s.files| > 0 then 3 + |s.files| else 0)
    + (if |s.packages| > 0 then 3 + |s.packages| else 0)
    + (3 + |Tabulate(LicenceList(s))|)
    + 8
    + 1
  }

  lemma MarkdownLines(s: Sbom, filename: string)
    ensures 3 * |Plan(s, filename)| + RowTotal(Plan(s, filename)) + 1 == MarkdownLineCount(s)
  {
    PlanRowTotal(s, filename);
    assert |Plan(s, filename)| == 3 + (if |s.files| > 0 then 1 else 0) + (if |s.packages| > 0 then 1 else 0);
    LineArithmetic(s, |Plan(s, filename)|, RowTotal(Plan(s, filename)));
  }

  lemma LineArithmetic(s: Sbom, tables: int, rows: int)
    requires tables == 3 + (if |s.files| > 0 then 1 else 0) + (if |s.packages| > 0 then 1 else 0)
    requires rows == (8 + |s.document.creators|)
                   + (if |s.files| > 0 then |s.files| else 0)
                   + (if |s.packages| > 0 then |s.packages| else 0)
                   + |Tabulate(LicenceList(s))|
                   + 5
    ensures 3 * tables + rows + 1 == MarkdownLineCount(s)
  {
  }
}
