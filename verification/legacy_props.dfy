/** What the legacy Markdown report promises, and how it relates to the builder-based report. */
module LegacyProps {
  import opened Options
  import opened Text
  import opened Seqs
  import opened Sbom
  import opened Ntia
  import opened Licences
  import opened LegacyMarkdown
  import Generator
  import MarkdownBuilder

  /** A two-column line gives back its value unchanged. */
  lemma CellReadBack(caption: string, value: string)
    ensures Unwrap(Cell(caption, value), "| " + caption + " |", "|") == Some(value)
  {
    UnwrapWrapped("| " + caption + " |", value, "|");
  }

  /** The line with this caption holds the decimal digits of `n`. */
  predicate ReadsBack(line: string, caption: string, n: nat) {
    var cell := Unwrap(line, "| " + caption + " |", "|");
    cell.Some? && AllDigits(cell.value) && ParseDecimal(cell.value) == n
  }

  lemma CountReadBack(caption: string, n: nat)
    ensures ReadsBack(Cell(caption, NatToString(n)), caption, n)
  {
    CellReadBack(caption, NatToString(n));
    ParseNatToString(n);
  }

  /** Positions in a three-part list. */
  lemma ThreeParts(pre: seq<string>, mid: seq<string>, post: seq<string>)
    ensures |pre + mid + post| == |pre| + |mid| + |post|
    ensures forall i :: 0 <= i < |pre| ==> (pre + mid + post)[i] == pre[i]
    ensures forall i :: |pre| <= i < |pre| + |mid| ==> (pre + mid + post)[i] == mid[i - |pre|]
    ensures forall i :: |pre| + |mid| <= i < |pre| + |mid| + |post| ==> (pre + mid + post)[i] == post[i - |pre| - |mid|]
  {
  }

  lemma SummarySplit(s: Sbom, filename: string)
    requires Renderable(s)
    ensures var b := SummaryBlock(s, filename);
      var n := |s.document.creators|;
      && |b| == 11 + n
      && b[0] == MarkdownBuilder.HeadingLine(1, "SBOM Summary")
      && (forall i :: 0 <= i < n ==> b[7 + i] == CreatorLine(s.document.creators[i]))
      && (forall i :: 0 <= i < 4 ==> b[7 + n + i] == SummaryTail(s)[i])
  {
    var head, mid, tail := SummaryHead(s, filename), Map(CreatorLine, s.document.creators), SummaryTail(s);
    assert |head| == 7 && head[0] == MarkdownBuilder.HeadingLine(1, "SBOM Summary");
    assert |tail| == 4;
    ThreeParts(head, mid, tail);
    assert SummaryBlock(s, filename) == head + mid + tail;
  }

  /**
    The SBOM Summary block is eleven lines plus one per creator, each
    creator on its own line, then the creation time.
   */
  lemma SummaryBlockFacts(s: Sbom, filename: string)
    requires Renderable(s)
    ensures var b := SummaryBlock(s, filename);
      var n := |s.document.creators|;
      && |b| == 11 + n
      && b[0] == MarkdownBuilder.HeadingLine(1, "SBOM Summary")
      && (forall i :: 0 <= i < n ==> b[7 + i] == Cell("Creator", Generator.CreatorText(s.document.creators[i])))
      && b[7 + n] == Cell("Created", s.document.created.value)
  {
    SummarySplit(s, filename);
    assert SummaryTail(s)[0] == Cell("Created", s.document.created.value);
  }

  /** The last three summary lines read back as the numbers of files, packages and relationships. */
  lemma SummaryCounts(s: Sbom, filename: string)
    requires Renderable(s)
    ensures var b := SummaryBlock(s, filename);
      var n := |s.document.creators|;
      && |b| == 11 + n
      && ReadsBack(b[8 + n], "Files", |s.files|)
      && ReadsBack(b[9 + n], "Packages", |s.packages|)
      && ReadsBack(b[10 + n], "Relationships", |s.relationships|)
  {
    SummarySplit(s, filename);
    CountReadBack("Files", |s.files|);
    CountReadBack("Packages", |s.packages|);
    CountReadBack("Relationships", |s.relationships|);
  }

  /** The File Summary block exists exactly when there are files: three header lines and one line per file. */
  lemma FileBlockFacts(files: seq<FileEntry>)
    requires forall i :: 0 <= i < |files| ==> FileRenderable(files[i])
    ensures var b := FileBlock(files);
      && (|b| > 0 <==> |files| > 0)
      && (|files| > 0 ==>
            && |b| == 3 + |files|
            && b[0] == MarkdownBuilder.HeadingLine(1, "File Summary")
            && forall i :: 0 <= i < |files| ==> b[3 + i] == FileLine(files[i]))
  {
  }

  /** The Package Summary block exists exactly when there are packages: three header lines and one line per package. */
  lemma PackageBlockFacts(packages: seq<Package>)
    requires forall i :: 0 <= i < |packages| ==> PackageRenderable(packages[i])
    ensures var b := PackageBlock(packages);
      && (|b| > 0 <==> |packages| > 0)
      && (|packages| > 0 ==>
            && |b| == 3 + |packages|
            && b[0] == MarkdownBuilder.HeadingLine(1, "Package Summary")
            && forall i :: 0 <= i < |packages| ==> b[3 + i] == PackageLine(packages[i]))
  {
  }

  lemma JoinFour(sep: string, a: string, b: string, c: string, d: string)
    ensures Join(sep, [a, b, c, d]) == a + sep + b + sep + c + sep + d
  {
    var xs := [a, b, c, d];
    assert xs[1..] == [b, c, d] && xs[1..][1..] == [c, d] && xs[1..][1..][1..] == [d];
    assert Join(sep, [d]) == d;
    assert Join(sep, [c, d]) == c + sep + d;
    assert Join(sep, [b, c, d]) == b + sep + (c + sep + d);
  }

  /**
    A file line is the builder's row line for the same file, framed by a
    leading and a trailing pipe.
   */
  lemma FileLineMatchesBuilder(f: FileEntry)
    requires FileRenderable(f)
    ensures MarkdownBuilder.AllPresent(Generator.FileRow(f))
    ensures FileLine(f) == "| " + MarkdownBuilder.RowLine(Generator.FileRow(f)) + " |"
  {
    var a, b, c, d := f.name.value, Join(", ", f.fileTypes.value), f.license.GetOr(NotKnown), f.copyright.GetOr("-");
    assert MarkdownBuilder.Texts(Generator.FileRow(f)) == [a, b, c, d];
    JoinFour(" | ", a, b, c, d);
  }

  /**
    A package line is the builder's row line for the same package, framed
    by a leading and a trailing pipe.
   */
  lemma PackageLineMatchesBuilder(p: Package)
    requires PackageRenderable(p)
    ensures MarkdownBuilder.AllPresent(Generator.PackageRow(p))
    ensures PackageLine(p) == "| " + MarkdownBuilder.RowLine(Generator.PackageRow(p)) + " |"
  {
    var a, b, c, d := p.name.value, p.version.value, p.supplier.value, p.license.GetOr(NotKnown);
    assert MarkdownBuilder.Texts(Generator.PackageRow(p)) == [a, b, c, d];
    JoinFour(" | ", a, b, c, d);
  }

  /**
    The licence lines list the present licences once each, in ascending
    order, each with the number of times it occurs.
   */
  lemma LicenceBlockFacts(ls: seq<string>)
    ensures var b := LicenceBlock(ls);
      var f := Tabulate(ls);
      && |b| == 3 + |f|
      && b[0] == MarkdownBuilder.HeadingLine(1, "License Summary")
      && StrictlyAscending(Keys(f))
      && (forall k :: k in Keys(f) <==> k in ls)
      && forall i :: 0 <= i < |f| ==> b[3 + i] == "| " + f[i].0 + " | " + NatToString(multiset(ls)[f[i].0]) + " | "
  {
  }

  /** The legacy counts add up to the files and packages that have a licence. */
  lemma LegacyLicenceCount(s: Sbom)
    ensures SumCounts(Tabulate(LegacyLicenceList(s))) + Unlicensed(s) == |s.files| + |s.packages|
  {
  }

  /** An absent licence read as "NOT KNOWN". */
  function OrNotKnown(x: Option<string>): string {
    x.GetOr(NotKnown)
  }

  /** Reading absent values as "NOT KNOWN" adds the absent entries to the count of "NOT KNOWN". */
  lemma {:induction false} DefaultedCount(xs: seq<Option<string>>, k: string)
    ensures multiset(Map(OrNotKnown, xs))[k]
         == multiset(xs)[Some(k)] + (if k == NotKnown then multiset(xs)[None] else 0)
  {
    if |xs| > 0 {
      DefaultedCount(xs[1..], k);
      assert xs == [xs[0]] + xs[1..];
      assert Map(OrNotKnown, xs) == [OrNotKnown(xs[0])] + Map(OrNotKnown, xs[1..]);
      DefaultedHead(xs[0], k);
    }
  }

  lemma DefaultedHead(x: Option<string>, k: string)
    ensures multiset{OrNotKnown(x)}[k]
         == multiset{x}[Some(k)] + (if k == NotKnown then multiset{x}[None] else 0)
  {
  }

  lemma FileLicences(files: seq<FileEntry>, k: string)
    ensures multiset(Map(Generator.FileLicence, files))[k]
         == multiset(Map(FileLicenceField, files))[Some(k)]
            + (if k == NotKnown then multiset(Map(FileLicenceField, files))[None] else 0)
  {
    assert Map(Generator.FileLicence, files) == Map(OrNotKnown, Map(FileLicenceField, files));
    DefaultedCount(Map(FileLicenceField, files), k);
  }

  lemma PackageLicences(packages: seq<Package>, k: string)
    ensures multiset(Map(Generator.PackageLicence, packages))[k]
         == multiset(Map(PackageLicenceField, packages))[Some(k)]
            + (if k == NotKnown then multiset(Map(PackageLicenceField, packages))[None] else 0)
  {
    assert Map(Generator.PackageLicence, packages) == Map(OrNotKnown, Map(PackageLicenceField, packages));
    DefaultedCount(Map(PackageLicenceField, packages), k);
  }

  /**
    The two generators' licence lists agree on every licence except
    "NOT KNOWN", of which the builder-based list holds one more per file
    or package without a licence.
   */
  lemma LicenceListsAgree(s: Sbom, k: string)
    ensures multiset(Generator.LicenceList(s))[k]
         == multiset(LegacyLicenceList(s))[k] + (if k == NotKnown then Unlicensed(s) else 0)
  {
    FileLicences(s.files, k);
    PackageLicences(s.packages, k);
  }

  /** When every file and package has a licence both generators tabulate the same licences. */
  lemma FullyLicensedSameTable(s: Sbom)
    requires Unlicensed(s) == 0
    ensures Tabulate(LegacyLicenceList(s)) == Tabulate(Generator.LicenceList(s))
  {
    forall k ensures multiset(LegacyLicenceList(s))[k] == multiset(Generator.LicenceList(s))[k] {
      LicenceListsAgree(s, k);
    }
    assert multiset(LegacyLicenceList(s)) == multiset(Generator.LicenceList(s));
    TabulateIgnoresOrder(LegacyLicenceList(s), Generator.LicenceList(s));
  }

  /**
    The NTIA block is a heading, two header lines and five status lines
    reading back as the five checks; the final line says True exactly when
    all five hold.
   */
  lemma NtiaBlockFacts(v: Verdict)
    ensures var b := NtiaBlock(v);
      && |b| == 8
      && b[0] == MarkdownBuilder.HeadingLine(1, "NTIA Summary")
      && (forall i :: 0 <= i < 5 ==>
            Unwrap(b[3 + i], "| " + LegacyNtiaLabels[i] + " |", "|") == Some(BoolToString(Generator.Flags(v)[i])))
      && (FinalLine(v) == "\nNTIA conformant True" <==>
            v.filesValid && v.packagesValid && v.creatorIdentified && v.creationTime && v.relationshipsValid)
  {
    var b := NtiaBlock(v);
    forall i | 0 <= i < 5
      ensures Unwrap(b[3 + i], "| " + LegacyNtiaLabels[i] + " |", "|") == Some(BoolToString(Generator.Flags(v)[i]))
    {
      CellReadBack(LegacyNtiaLabels[i], BoolToString(Generator.Flags(v)[i]));
    }
    if !v.Conformant() {
      assert FinalLine(v)[|FinalLine(v)| - 1] == 'e';
      assert FinalLine(v) != "\nNTIA conformant True" by {
        assert |FinalLine(v)| != |"\nNTIA conformant True"|;
      }
    }
  }

  /** The creation time is always reported as identified: the report cannot be built without it. */
  lemma CreationTimeAlwaysTrue(s: Sbom)
    requires Renderable(s)
    ensures Assess(s).creationTime
    ensures NtiaBlock(Assess(s))[6] == Cell("Creation time identified?", "True")
  {
  }

  /** The report's length, block by block. */
  lemma DocumentLength(s: Sbom, filename: string)
    requires Renderable(s)
    ensures |GenerateMarkdown(s, filename)|
         == (11 + |s.document.creators|)
          + (if |s.files| > 0 then 3 + |s.files| else 0)
          + (if |s.packages| > 0 then 3 + |s.packages| else 0)
          + (3 + |Tabulate(LegacyLicenceList(s))|)
          + 8
          + 1
  {
    SummarySplit(s, filename);
    FileBlockFacts(s.files);
    PackageBlockFacts(s.packages);
  }
}
