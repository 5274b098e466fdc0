/**
  `generate_markdown`: the older stand-alone Markdown report, built as a
  list of lines without a document builder. Its layout differs from the
  builder's, and it leaves absent licences out of the licence count. As in
  `MarkdownBuilder`, a "line" is one entry of the list; the section
  openings carry their own newlines.
 */
module LegacyMarkdown {
  import opened Options
  import opened Text
  import opened Seqs
  import opened Sbom
  import opened Ntia
  import opened Licences
  import Generator
  import MarkdownBuilder

  /** Every field the report concatenates into a line must be present: concatenating `None` raises. */
  predicate Renderable(s: Sbom) {
    && s.document.sbomType.Some?
    && s.document.version.Some?
    && s.document.name.Some?
    && s.document.created.Some?
    && (forall i :: 0 <= i < |s.files| ==> FileRenderable(s.files[i]))
    && (forall i :: 0 <= i < |s.packages| ==> PackageRenderable(s.packages[i]))
  }

  /** A file needs a name and a list of types (iterating an absent list raises). */
  predicate FileRenderable(f: FileEntry) {
    f.name.Some? && f.fileTypes.Some?
  }

  predicate PackageRenderable(p: Package) {
    p.name.Some? && p.version.Some? && p.supplier.Some?
  }

  const TwoColumnRule := "| ------------ | ------------ |"
  const FourColumnRule := "| ------------ | ------------ |------------ |------------ |"
  const StatusRule := "| ------------ | ----------- |"

  /** A two-column line with the value squeezed against the pipes. */
  function Cell(caption: string, value: string): string {
    "| " + caption + " |" + value + "|"
  }

  function SectionStart(title: string): string {
    MarkdownBuilder.HeadingLine(1, title)
  }

  function CreatorLine(c: Creator): string {
    Cell("Creator", Generator.CreatorText(c))
  }

  /** The SBOM Summary lines before the creators. */
  function SummaryHead(s: Sbom, filename: string): seq<string>
    requires Renderable(s)
  {
    var d := s.document;
    [ SectionStart("SBOM Summary"),
      "| Item | Details |",
      TwoColumnRule,
      Cell("SBOM File", filename),
      Cell("SBOM Type", d.sbomType.value),
      Cell("Version", d.version.value),
      Cell("Name", d.name.value) ]
  }

  /** The SBOM Summary lines after the creators. */
  function SummaryTail(s: Sbom): seq<string>
    requires Renderable(s)
  {
    [ Cell("Created", s.document.created.value),
      Cell("Files", NatToString(|s.files|)),
      Cell("Packages", NatToString(|s.packages|)),
      Cell("Relationships", NatToString(|s.relationships|)) ]
  }

  /** The SBOM Summary block: one line per creator between the head and the tail. */
  function SummaryBlock(s: Sbom, filename: string): seq<string>
    requires Renderable(s)
  {
    SummaryHead(s, filename) + Map(CreatorLine, s.document.creators) + SummaryTail(s)
  }

  function FileLine(f: FileEntry): string
    requires FileRenderable(f)
  {
    "| " + f.name.value + " | " + Join(", ", f.fileTypes.value) + " | " + f.license.GetOr(NotKnown)
    + " | " + f.copyright.GetOr("-") + " |"
  }

  function PackageLine(p: Package): string
    requires PackageRenderable(p)
  {
    "| " + p.name.value + " | " + p.version.value + " | " + p.supplier.value + " | "
    + p.license.GetOr(NotKnown) + " |"
  }

  /** The File Summary block, present only when there are files. */
  function FileBlock(files: seq<FileEntry>): seq<string>
    requires forall i :: 0 <= i < |files| ==> FileRenderable(files[i])
  {
    if |files| == 0 then []
    else [SectionStart("File Summary"), "| Name | Type | License | Copyright |", FourColumnRule]
         + seq(|files|, i requires 0 <= i < |files| => FileLine(files[i]))
  }

  /** The Package Summary block, present only when there are packages. */
  function PackageBlock(packages: seq<Package>): seq<string>
    requires forall i :: 0 <= i < |packages| ==> PackageRenderable(packages[i])
  {
    if |packages| == 0 then []
    else [SectionStart("Package Summary"), "| Name | Version | Supplier | License |", FourColumnRule]
         + seq(|packages|, i requires 0 <= i < |packages| => PackageLine(packages[i]))
  }

  /**
    The values that are present, in order: exactly the `Some` entries, each
    as often as it occurs, and as many as the entries that are not `None`.
   */
  function Present(xs: seq<Option<string>>): (r: seq<string>)
    ensures forall x :: multiset(r)[x] == multiset(xs)[Some(x)]
    ensures |r| + multiset(xs)[None] == |xs|
  {
    if |xs| == 0 then []
    else
      assert xs == [xs[0]] + xs[1..];
      (if xs[0].Some? then [xs[0].value] else []) + Present(xs[1..])
  }

  function FileLicenceField(f: FileEntry): Option<string> {
    f.license
  }

  function PackageLicenceField(p: Package): Option<string> {
    p.license
  }

  /** `sbom_licenses` here: only the licences that are present, files first. */
  function LegacyLicenceList(s: Sbom): seq<string> {
    Present(Map(FileLicenceField, s.files)) + Present(Map(PackageLicenceField, s.packages))
  }

  /** How many files and packages carry no licence. */
  function Unlicensed(s: Sbom): nat {
    multiset(Map(FileLicenceField, s.files))[None] + multiset(Map(PackageLicenceField, s.packages))[None]
  }

  /** A licence line ends with a pipe and a trailing space. */
  function LicenceLine(entry: (string, nat)): string {
    "| " + entry.0 + " | " + NatToString(entry.1) + " | "
  }

  function LicenceBlock(ls: seq<string>): seq<string> {
    [SectionStart("License Summary"), "| License | Count |", StatusRule] + Map(LicenceLine, Tabulate(ls))
  }

  /** The status captions; the last carries a stray apostrophe. */
  const LegacyNtiaLabels: seq<string> := [
    "All file information provided?",
    "All package information provided?",
    "Creator identified?",
    "Creation time identified?",
    "Dependency relationships provided?'"
  ]

  function NtiaBlock(v: Verdict): seq<string> {
    [SectionStart("NTIA Summary"), "| Element | Status |", StatusRule]
    + seq(5, i requires 0 <= i < 5 => Cell(LegacyNtiaLabels[i], BoolToString(Generator.Flags(v)[i])))
  }

  function FinalLine(v: Verdict): string {
    "\nNTIA conformant " + BoolToString(v.Conformant())
  }

  /** The whole report as a list of lines. */
  function GenerateMarkdown(s: Sbom, filename: string): seq<string>
    requires Renderable(s)
  {
    SummaryBlock(s, filename)
    + FileBlock(s.files)
    + PackageBlock(s.packages)
    + LicenceBlock(LegacyLicenceList(s))
    + NtiaBlock(Assess(s))
    + [FinalLine(Assess(s))]
  }
}
