/**
  What a reader of the generated call sequence sees: the sections in their
  fixed order, the summary counts, the licence frequency table and the NTIA
  verdicts, stated over the SBOM alone.
 */
module GeneratorProps {
  import opened Options
  import opened Text
  import opened Seqs
  import opened Sbom
  import opened Ntia
  import opened Licences
  import opened Trace
  import opened Generator

  /** The shape of any plan: a first table, optional ones, then two closing tables. */
  lemma PlanShape(first: TableSpec, middle: seq<TableSpec>, licence: TableSpec, ntia: TableSpec)
    ensures var plan := [first] + middle + [licence, ntia];
      && |plan| == 3 + |middle|
      && plan[0] == first
      && plan[|plan| - 2] == licence
      && plan[|plan| - 1] == ntia
      && Titles(SectionsOf(plan)) == [first.title] + Titles(SectionsOf(middle)) + [licence.title, ntia.title]
  {
    var plan := [first] + middle + [licence, ntia];
    assert Titles(SectionsOf(plan)) == [first.title] + Titles(SectionsOf(middle)) + [licence.title, ntia.title];
  }

  /** The first, second-to-last and last tables of every report. */
  lemma PlanEnds(s: Sbom, filename: string)
    ensures var plan := Plan(s, filename);
      && |plan| == 3 + (if |s.files| > 0 then 1 else 0) + (if |s.packages| > 0 then 1 else 0)
      && plan[0] == SummaryTable(s, filename)
      && plan[|plan| - 2] == LicenceTable(s)
      && plan[|plan| - 1] == NtiaTable(Assess(s))
  {
    PlanShape(SummaryTable(s, filename),
      Optional(|s.files| > 0, FileTable(s.files)) + Optional(|s.packages| > 0, PackageTable(s.packages)),
      LicenceTable(s), NtiaTable(Assess(s)));
  }

  /**
    Section order is fixed: SBOM Summary first, File Summary iff there is a
    file, Package Summary iff there is a package, then License Summary and
    NTIA Summary always.
   */
  lemma SectionOrder(s: Sbom, filename: string)
    ensures Titles(Outline(Generate(s, filename)))
         == [SummaryTitle]
          + (if |s.files| > 0 then [FileTitle] else [])
          + (if |s.packages| > 0 then [PackageTitle] else [])
          + [LicenceTitle, NtiaTitle]
    ensures FileTitle in Titles(Outline(Generate(s, filename))) <==> |s.files| > 0
    ensures PackageTitle in Titles(Outline(Generate(s, filename))) <==> |s.packages| > 0
  {
    PlanTitles(s, filename);
    ReportTitles(Plan(s, filename), ConformanceLine(Assess(s)));
    OptionalTitlesPresent(|s.files| > 0, |s.packages| > 0);
  }

  lemma OptionalTitlesPresent(hasFiles: bool, hasPackages: bool)
    ensures var ts := [SummaryTitle]
          + (if hasFiles then [FileTitle] else [])
          + (if hasPackages then [PackageTitle] else [])
          + [LicenceTitle, NtiaTitle];
      && (FileTitle in ts <==> hasFiles)
      && (PackageTitle in ts <==> hasPackages)
  {
    assert FileTitle[0] == 'F' && PackageTitle[0] == 'P';
    assert SummaryTitle[0] == 'S' && LicenceTitle[0] == 'L' && NtiaTitle[0] == 'N';
  }

  lemma PlanTitles(s: Sbom, filename: string)
    ensures Titles(SectionsOf(Plan(s, filename)))
         == [SummaryTitle]
          + (if |s.files| > 0 then [FileTitle] else [])
          + (if |s.packages| > 0 then [PackageTitle] else [])
          + [LicenceTitle, NtiaTitle]
  {
    var first, licence, ntia := SummaryTable(s, filename), LicenceTable(s), NtiaTable(Assess(s));
    var f := Optional(|s.files| > 0, FileTable(s.files));
    var p := Optional(|s.packages| > 0, PackageTable(s.packages));
    PlanRegrouped(s, filename);
    ShapeTitles(first, f, p, licence, ntia);
    OptionalTitles(|s.files| > 0, FileTable(s.files));
    OptionalTitles(|s.packages| > 0, PackageTable(s.packages));
  }

  lemma PlanRegrouped(s: Sbom, filename: string)
    ensures Plan(s, filename) == [SummaryTable(s, filename)]
      + (Optional(|s.files| > 0, FileTable(s.files)) + Optional(|s.packages| > 0, PackageTable(s.packages)))
      + [LicenceTable(s), NtiaTable(Assess(s))]
  {
    var f := Optional(|s.files| > 0, FileTable(s.files));
    var p := Optional(|s.packages| > 0, PackageTable(s.packages));
    Regroup([SummaryTable(s, filename)], f, p, [LicenceTable(s), NtiaTable(Assess(s))]);
  }

  /**
    Regrouping a concatenation, stated over abstract sequences so that the
    solver does not unfold a whole plan to see it.
   */
  lemma Regroup<T>(a: seq<T>, f: seq<T>, p: seq<T>, z: seq<T>)
    ensures a + f + p + z == a + (f + p) + z
  {
  }

  /** The titles of a plan with two optional parts in the middle. */
  lemma ShapeTitles(first: TableSpec, f: seq<TableSpec>, p: seq<TableSpec>, licence: TableSpec, ntia: TableSpec)
    ensures Titles(SectionsOf([first] + (f + p) + [licence, ntia]))
         == [first.title] + Titles(SectionsOf(f)) + Titles(SectionsOf(p)) + [licence.title, ntia.title]
  {
    PlanShape(first, f + p, licence, ntia);
    assert Titles(SectionsOf(f + p)) == Titles(SectionsOf(f)) + Titles(SectionsOf(p));
  }

  lemma OptionalTitles(present: bool, spec: TableSpec)
    ensures Titles(SectionsOf(Optional(present, spec))) == if present then [spec.title] else []
  {
  }

  /** The closing paragraph is the second-to-last call and `publish` the last, and only, one. */
  lemma GenerateEndsWithPublish(s: Sbom, filename: string)
    ensures var t := Generate(s, filename);
      && |t| >= 2
      && t[|t| - 1] == Publish
      && t[|t| - 2] == Paragraph(ConformanceLine(Assess(s)))
      && forall i :: 0 <= i < |t| - 1 ==> t[i] != Publish
  {
    ReportEnds(Plan(s, filename), ConformanceLine(Assess(s)));
  }

  /** The sections of the report, and the three that every report has. */
  lemma GenerateSections(s: Sbom, filename: string)
    ensures var o := Outline(Generate(s, filename));
      && |o| == 3 + (if |s.files| > 0 then 1 else 0) + (if |s.packages| > 0 then 1 else 0)
      && o[0] == Section(SummaryTitle, SummaryRows(s, filename), [])
      && o[|o| - 2] == Section(LicenceTitle, Map(LicenceRow, Tabulate(LicenceList(s))), [])
      && o[|o| - 1] == Section(NtiaTitle, NtiaRows(Assess(s)), [ConformanceLine(Assess(s))])
  {
    PlanEnds(s, filename);
    ReportOutline(Plan(s, filename), ConformanceLine(Assess(s)));
  }

  /** A two-cell row labelled `caption` whose second cell is the decimal digits of `n`. */
  predicate ReadsAsCount(row: seq<Option<string>>, caption: string, n: nat) {
    && |row| == 2
    && row[0] == Some(caption)
    && row[1].Some?
    && AllDigits(row[1].value)
    && ParseDecimal(row[1].value) == n
  }

  /**
    The SBOM Summary rows: 8 plus one per creator, the file name first, and
    Files, Packages and Relationships rows that read back as the sizes of
    the three collections.
   */
  lemma SummaryRowsFacts(s: Sbom, filename: string)
    ensures var rows := SummaryRows(s, filename);
      && |rows| == 8 + |s.document.creators|
      && (forall i :: 0 <= i < |rows| ==> |rows[i]| == 2 && rows[i][0].Some?)
      && rows[0] == [Some("SBOM File"), Some(filename)]
      && (forall i :: 0 <= i < |s.document.creators| ==>
            rows[4 + i] == [Some("Creator"), Some(s.document.creators[i].kind + ":" + s.document.creators[i].name)])
      && rows[|rows| - 4] == [Some("Created"), s.document.created]
      && ReadsAsCount(rows[|rows| - 3], "Files", |s.files|)
      && ReadsAsCount(rows[|rows| - 2], "Packages", |s.packages|)
      && ReadsAsCount(rows[|rows| - 1], "Relationships", |s.relationships|)
  {
    SummaryRowsLayout(s, filename);
    SummaryRowsCounts(s, filename);
  }

  lemma SummaryRowsLayout(s: Sbom, filename: string)
    ensures var rows := SummaryRows(s, filename);
      && |rows| == 8 + |s.document.creators|
      && (forall i :: 0 <= i < |rows| ==> |rows[i]| == 2 && rows[i][0].Some?)
      && rows[0] == [Some("SBOM File"), Some(filename)]
      && (forall i :: 0 <= i < |s.document.creators| ==>
            rows[4 + i] == [Some("Creator"), Some(s.document.creators[i].kind + ":" + s.document.creators[i].name)])
      && rows[|rows| - 4] == [Some("Created"), s.document.created]
  {
  }

  lemma SummaryRowsCounts(s: Sbom, filename: string)
    ensures var rows := SummaryRows(s, filename);
      && |rows| == 8 + |s.document.creators|
      && ReadsAsCount(rows[|rows| - 3], "Files", |s.files|)
      && ReadsAsCount(rows[|rows| - 2], "Packages", |s.packages|)
      && ReadsAsCount(rows[|rows| - 1], "Relationships", |s.relationships|)
  {
    ParseNatToString(|s.files|);
    ParseNatToString(|s.packages|);
    ParseNatToString(|s.relationships|);
  }

  /** The sum of a table's second column, read as decimal numbers. */
  function CountTotal(rows: seq<seq<Option<string>>>): nat {
    if |rows| == 0 then 0
    else
      var row := rows[0];
      (if |row| >= 2 && row[1].Some? && AllDigits(row[1].value) then ParseDecimal(row[1].value) else 0)
      + CountTotal(rows[1..])
  }

  lemma {:induction false} CountTotalOfTable(f: Frequencies)
    ensures CountTotal(Map(LicenceRow, f)) == SumCounts(f)
  {
    if |f| > 0 {
      ParseNatToString(f[0].1);
      assert Map(LicenceRow, f)[1..] == Map(LicenceRow, f[1..]);
      CountTotalOfTable(f[1..]);
    }
  }

  /** Every file and package contributes exactly one licence, absent ones as "NOT KNOWN". */
  lemma LicenceListCoversInventory(s: Sbom)
    ensures |LicenceList(s)| == |s.files| + |s.packages|
    ensures forall i :: 0 <= i < |s.files| ==> LicenceList(s)[i] == s.files[i].license.GetOr(NotKnown)
    ensures forall j :: 0 <= j < |s.packages| ==> LicenceList(s)[|s.files| + j] == s.packages[j].license.GetOr(NotKnown)
  {
  }

  /** What a reader of a licence table sees, for the licence list `ls`. */
  ghost predicate FrequencyRows(rows: seq<seq<Option<string>>>, ls: seq<string>) {
    && (forall i :: 0 <= i < |rows| ==>
          && |rows[i]| == 2 && rows[i][0].Some? && rows[i][1].Some?
          && AllDigits(rows[i][1].value)
          && ParseDecimal(rows[i][1].value) == multiset(ls)[rows[i][0].value]
          && ParseDecimal(rows[i][1].value) > 0)
    && (forall i, j :: 0 <= i < j < |rows| ==> Below(rows[i][0].value, rows[j][0].value))
    && (forall k :: k in ls <==> exists i :: 0 <= i < |rows| && rows[i][0] == Some(k))
    && CountTotal(rows) == |ls|
  }

  /**
    The rows of a licence table are the distinct licences in strictly
    ascending order, each with its number of occurrences, and the counts
    add up to the length of the list.
   */
  lemma LicenceRowsFacts(ls: seq<string>)
    ensures FrequencyRows(Map(LicenceRow, Tabulate(ls)), ls)
  {
    var f := Tabulate(ls);
    LicenceRowCells(f, ls);
    LicenceRowsAscending(f);
    LicenceRowsCover(f, ls);
    CountTotalOfTable(f);
  }

  lemma LicenceRowCells(f: Frequencies, ls: seq<string>)
    requires forall i :: 0 <= i < |f| ==> f[i].1 == multiset(ls)[f[i].0] && f[i].1 > 0
    ensures var rows: seq<seq<Option<string>>> := Map(LicenceRow, f);
      forall i :: 0 <= i < |rows| ==>
          && |rows[i]| == 2 && rows[i][0].Some? && rows[i][1].Some?
          && AllDigits(rows[i][1].value)
          && ParseDecimal(rows[i][1].value) == multiset(ls)[rows[i][0].value]
          && ParseDecimal(rows[i][1].value) > 0
  {
    forall i | 0 <= i < |f| ensures ParseDecimal(NatToString(f[i].1)) == f[i].1 {
      ParseNatToString(f[i].1);
    }
  }

  lemma LicenceRowsAscending(f: Frequencies)
    requires StrictlyAscending(Keys(f))
    ensures var rows: seq<seq<Option<string>>> := Map(LicenceRow, f);
      forall i, j :: 0 <= i < j < |rows| ==> Below(rows[i][0].value, rows[j][0].value)
  {
    forall i, j | 0 <= i < j < |f| ensures Below(f[i].0, f[j].0) {
      assert Below(Keys(f)[i], Keys(f)[j]);
    }
  }

  lemma LicenceRowsCover(f: Frequencies, ls: seq<string>)
    requires forall k :: k in Keys(f) <==> k in ls
    ensures var rows: seq<seq<Option<string>>> := Map(LicenceRow, f);
      forall k :: k in ls <==> exists i :: 0 <= i < |rows| && rows[i][0] == Some(k)
  {
    var rows: seq<seq<Option<string>>> := Map(LicenceRow, f);
    forall k ensures k in ls <==> exists i :: 0 <= i < |rows| && rows[i][0] == Some(k) {
      if k in ls {
        assert k in Keys(f);
        var i :| 0 <= i < |f| && Keys(f)[i] == k;
        assert rows[i][0] == Some(k);
      }
      if exists i :: 0 <= i < |rows| && rows[i][0] == Some(k) {
        var i :| 0 <= i < |rows| && rows[i][0] == Some(k);
        assert Keys(f)[i] == k;
      }
    }
  }

  /**
    The License Summary of a report: distinct licences ascending with their
    counts, one licence per file and per package, so the counts add up to
    the number of files plus the number of packages.
   */
  lemma LicenceSection(s: Sbom, filename: string)
    ensures var o := Outline(Generate(s, filename));
      && |o| >= 3
      && o[|o| - 2].title == LicenceTitle
      && FrequencyRows(o[|o| - 2].rows, LicenceList(s))
      && CountTotal(o[|o| - 2].rows) == |s.files| + |s.packages|
  {
    GenerateSections(s, filename);
    LicenceRowsFacts(LicenceList(s));
    LicenceListCoversInventory(s);
  }

  /** Reordering the files and the packages does not change the License Summary. */
  lemma LicenceSectionIgnoresOrder(s1: Sbom, s2: Sbom, filename: string)
    requires multiset(s1.files) == multiset(s2.files)
    requires multiset(s1.packages) == multiset(s2.packages)
    ensures var o1 := Outline(Generate(s1, filename));
      var o2 := Outline(Generate(s2, filename));
      |o1| >= 3 && |o2| >= 3 && o1[|o1| - 2] == o2[|o2| - 2]
  {
    GenerateSections(s1, filename);
    GenerateSections(s2, filename);
    MapPermutation(FileLicence, s1.files, s2.files);
    MapPermutation(PackageLicence, s1.packages, s2.packages);
    assert multiset(LicenceList(s1)) == multiset(LicenceList(s2));
    TabulateIgnoresOrder(LicenceList(s1), LicenceList(s2));
  }

  /**
    The NTIA rows: five in fixed order, each "True" exactly when its minimum
    element is provided, and the verdict line "NTIA conformant True" exactly
    when all five are.
   */
  lemma NtiaFacts(s: Sbom)
    ensures var rows := NtiaRows(Assess(s));
      var line := ConformanceLine(Assess(s));
      && |rows| == 5
      && (forall i :: 0 <= i < 5 ==> |rows[i]| == 2 && rows[i][0] == Some(NtiaLabels[i]))
      && (forall i :: 0 <= i < 5 ==> rows[i][1] == Some("True") || rows[i][1] == Some("False"))
      && (rows[0][1] == Some("True") <==> forall i :: 0 <= i < |s.files| ==> FileComplete(s.files[i]))
      && (rows[1][1] == Some("False") <==> exists i :: 0 <= i < |s.packages| && !PackageComplete(s.packages[i]))
      && (rows[2][1] == Some("True") <==> |s.document.creators| > 0)
      && (rows[3][1] == Some("True") <==> s.document.created.Some?)
      && (rows[4][1] == Some("True") <==> |s.relationships| > 0)
      && (line == "NTIA conformant True" || line == "NTIA conformant False")
      && (line == "NTIA conformant True" <==>
            && (forall i :: 0 <= i < |s.files| ==> FileComplete(s.files[i]))
            && (forall i :: 0 <= i < |s.packages| ==> PackageComplete(s.packages[i]))
            && |s.document.creators| > 0
            && s.document.created.Some?
            && |s.relationships| > 0)
  {
    var v := Assess(s);
    assert "NTIA conformant True" != "NTIA conformant False";
    if v.packagesValid {
      forall i | 0 <= i < |s.packages| ensures PackageComplete(s.packages[i]) {
      }
    }
  }

  /** The NTIA Summary closes the report: the five verdicts and the conformance paragraph. */
  lemma NtiaSection(s: Sbom, filename: string)
    ensures var o := Outline(Generate(s, filename));
      && |o| >= 3
      && o[|o| - 1].title == NtiaTitle
      && o[|o| - 1].rows == NtiaRows(Assess(s))
      && o[|o| - 1].paragraphs == [ConformanceLine(Assess(s))]
  {
    GenerateSections(s, filename);
  }
}
