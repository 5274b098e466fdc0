/**
  The input of a report: what the SBOM parser hands over. Every attribute
  the reports read with `dict.get(key, default)` is an `Option`, `None`
  standing for an absent key.
 */
module Sbom {
  import opened Options

  /** One `(kind, name)` creator pair of the document. */
  datatype Creator = Creator(kind: string, name: string)

  datatype Document = Document(
    sbomType: Option<string>,
    version: Option<string>,
    name: Option<string>,
    creators: seq<Creator>,
    created: Option<string>)

  datatype FileEntry = FileEntry(
    id: Option<string>,
    name: Option<string>,
    fileTypes: Option<seq<string>>,
    license: Option<string>,
    copyright: Option<string>)

  datatype Package = Package(
    id: Option<string>,
    name: Option<string>,
    version: Option<string>,
    supplier: Option<string>,
    license: Option<string>)

  /** An edge between two components; the reports only count them. */
  datatype Relationship = Relationship(source: string, kind: string, target: string)

  datatype Sbom = Sbom(
    document: Document,
    files: seq<FileEntry>,
    packages: seq<Package>,
    relationships: seq<Relationship>)

  /** The placeholder shown for an absent licence. */
  const NotKnown: string := "NOT KNOWN"

  /** The supplier value that means no claim was made. */
  const NoAssertion: string := "NOASSERTION"
}
