/**
  `generate_document`: one pass over an SBOM producing the calls the chosen
  document builder receives, section by section.
 */
module Generator {
  import opened Options
  import opened Text
  import opened Seqs
  import opened Sbom
  import opened Ntia
  import opened Licences
  import opened Trace

  /** The builders `generate_document` can pick. */
  datatype Format = MarkdownFormat | PdfFormat | ConsoleFormat

  /** "markdown" and "pdf" pick their builders; every other token picks the console. */
  function SelectBuilder(format: string): (b: Format)
    ensures b == MarkdownFormat <==> format == "markdown"
    ensures b == PdfFormat <==> format == "pdf"
    ensures b == ConsoleFormat <==> format != "markdown" && format != "pdf"
  {
    if format == "markdown" then MarkdownFormat
    else if format == "pdf" then PdfFormat
    else ConsoleFormat
  }

  /** `f"{c[0]}:{c[1]}"` for a creator pair. */
  function CreatorText(c: Creator): string {
    c.kind + ":" + c.name
  }

  function CreatorRow(c: Creator): seq<Option<string>> {
    [Some("Creator"), Some(CreatorText(c))]
  }

  /** The SBOM Summary table rows. */
  function SummaryRows(s: Sbom, filename: string): seq<seq<Option<string>>> {
    var d := s.document;
    [ [Some("SBOM File"), Some(filename)],
      [Some("SBOM Type"), d.sbomType],
      [Some("Version"), d.version],
      [Some("Name"), d.name] ]
    + Map(CreatorRow, d.creators)
    + [ [Some("Created"), d.created],
        [Some("Files"), Some(NatToString(|s.files|))],
        [Some("Packages"), Some(NatToString(|s.packages|))],
        [Some("Relationships"), Some(NatToString(|s.relationships|))] ]
  }

  /** The file's types joined with ", ", or "NOT KNOWN" when it has none. */
  function FileType(f: FileEntry): string {
    match f.fileTypes
    case Some(types) => Join(", ", types)
    case None => NotKnown
  }

  function FileLicence(f: FileEntry): string {
    f.license.GetOr(NotKnown)
  }

  function FileRow(f: FileEntry): seq<Option<string>> {
    [f.name, Some(FileType(f)), Some(FileLicence(f)), Some(f.copyright.GetOr("-"))]
  }

  function PackageLicence(p: Package): string {
    p.license.GetOr(NotKnown)
  }

  function PackageRow(p: Package): seq<Option<string>> {
    [p.name, p.version, p.supplier, Some(PackageLicence(p))]
  }

  /** `sbom_licenses`: one entry per file, then one per package, absent ones as "NOT KNOWN". */
  function LicenceList(s: Sbom): seq<string> {
    Map(FileLicence, s.files) + Map(PackageLicence, s.packages)
  }

  function LicenceRow(entry: (string, nat)): seq<Option<string>> {
    [Some(entry.0), Some(NatToString(entry.1))]
  }

  const NtiaLabels: seq<string> := [
    "All file information provided?",
    "All package information provided?",
    "Creator identified?",
    "Creation time identified?",
    "Dependency relationships provided?"
  ]

  /** The five checks in table order. */
  function Flags(v: Verdict): seq<bool> {
    [v.filesValid, v.packagesValid, v.creatorIdentified, v.creationTime, v.relationshipsValid]
  }

  function NtiaRows(v: Verdict): seq<seq<Option<string>>> {
    seq(5, i requires 0 <= i < 5 => [Some(NtiaLabels[i]), Some(BoolToString(Flags(v)[i]))])
  }

  /** The closing paragraph, `f"NTIA conformant {valid_sbom}"`. */
  function ConformanceLine(v: Verdict): string {
    "NTIA conformant " + BoolToString(v.Conformant())
  }

  const SummaryTitle := "SBOM Summary"
  const FileTitle := "File Summary"
  const PackageTitle := "Package Summary"
  const LicenceTitle := "License Summary"
  const NtiaTitle := "NTIA Summary"

  function SummaryTable(s: Sbom, filename: string): TableSpec {
    TableSpec(SummaryTitle, ["Item", "Details"], SummaryRows(s, filename))
  }

  function FileTable(files: seq<FileEntry>): TableSpec {
    TableSpec(FileTitle, ["Name", "Type", "License", "Copyright"], Map(FileRow, files))
  }

  function PackageTable(packages: seq<Package>): TableSpec {
    TableSpec(PackageTitle, ["Name", "Version", "Supplier", "License"], Map(PackageRow, packages))
  }

  function LicenceTable(s: Sbom): TableSpec {
    TableSpec(LicenceTitle, ["License", "Count"], Map(LicenceRow, Tabulate(LicenceList(s))))
  }

  function NtiaTable(v: Verdict): TableSpec {
    TableSpec(NtiaTitle, ["Element", "Status"], NtiaRows(v))
  }

  /** A table that is emitted only when its collection is non-empty. */
  function Optional(present: bool, spec: TableSpec): seq<TableSpec> {
    if present then [spec] else []
  }

  /** The tables of the report in the order `generate_document` emits them. */
  function Plan(s: Sbom, filename: string): seq<TableSpec> {
    [SummaryTable(s, filename)]
    + Optional(|s.files| > 0, FileTable(s.files))
    + Optional(|s.packages| > 0, PackageTable(s.packages))
    + [LicenceTable(s), NtiaTable(Assess(s))]
  }

  /** The whole call sequence `generate_document` issues, ending with `publish`. */
  function Generate(s: Sbom, filename: string): seq<Call> {
    Report(Plan(s, filename), ConformanceLine(Assess(s)))
  }
}
