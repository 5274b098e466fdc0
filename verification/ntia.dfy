/**
  The five NTIA minimum-elements checks both report generators make, and
  their conjunction.
 */
module Ntia {
  import opened Options
  import opened Sbom

  datatype Verdict = Verdict(
    filesValid: bool,
    packagesValid: bool,
    creatorIdentified: bool,
    creationTime: bool,
    relationshipsValid: bool)
  {
    /** `valid_sbom`: all five checks pass. */
    predicate Conformant() {
      filesValid && packagesValid && creatorIdentified && creationTime && relationshipsValid
    }
  }

  /** A file carries the minimum elements: an id and a name. */
  predicate FileComplete(f: FileEntry) {
    f.id.Some? && f.name.Some?
  }

  /** A package carries the minimum elements: id, name, version and a real supplier. */
  predicate PackageComplete(p: Package) {
    p.id.Some? && p.name.Some? && p.version.Some? && p.supplier.Some? && p.supplier.value != NoAssertion
  }

  /** The loop flag `files_valid`: starts `valid`, drops to false at the first incomplete file. */
  function FilesValidFrom(valid: bool, files: seq<FileEntry>): bool {
    if |files| == 0 then valid
    else FilesValidFrom(if !FileComplete(files[0]) then false else valid, files[1..])
  }

  /** The loop flag `packages_valid`, in the same way. */
  function PackagesValidFrom(valid: bool, packages: seq<Package>): bool {
    if |packages| == 0 then valid
    else PackagesValidFrom(if !PackageComplete(packages[0]) then false else valid, packages[1..])
  }

  /** The file loop's flag is true iff every file is complete (vacuously so for none). */
  lemma {:induction false} FilesValidIffAllComplete(valid: bool, files: seq<FileEntry>)
    ensures FilesValidFrom(valid, files) <==> valid && forall i :: 0 <= i < |files| ==> FileComplete(files[i])
  {
    if |files| > 0 {
      FilesValidIffAllComplete(if !FileComplete(files[0]) then false else valid, files[1..]);
      assert forall i :: 0 < i < |files| ==> files[i] == files[1..][i - 1];
    }
  }

  /** The package loop's flag is false iff some package is incomplete. */
  lemma {:induction false} PackagesValidIffAllComplete(valid: bool, packages: seq<Package>)
    ensures !PackagesValidFrom(valid, packages) <==> !valid || exists i :: 0 <= i < |packages| && !PackageComplete(packages[i])
  {
    if |packages| > 0 {
      PackagesValidIffAllComplete(if !PackageComplete(packages[0]) then false else valid, packages[1..]);
      assert forall i :: 0 < i < |packages| ==> packages[i] == packages[1..][i - 1];
    }
  }

  /** The five checks for one SBOM. */
  function Assess(s: Sbom): (v: Verdict)
    ensures v.filesValid <==> forall i :: 0 <= i < |s.files| ==> FileComplete(s.files[i])
    ensures !v.packagesValid <==> exists i :: 0 <= i < |s.packages| && !PackageComplete(s.packages[i])
    ensures v.creatorIdentified <==> |s.document.creators| > 0
    ensures v.creationTime <==> s.document.created.Some?
    ensures v.relationshipsValid <==> |s.relationships| > 0
  {
    FilesValidIffAllComplete(true, s.files);
    PackagesValidIffAllComplete(true, s.packages);
    Verdict(
      FilesValidFrom(true, s.files),
      PackagesValidFrom(true, s.packages),
      |s.document.creators| > 0,
      s.document.created.Some?,
      |s.relationships| > 0)
  }

  /** A package whose supplier is exactly "NOASSERTION" makes the SBOM non-conformant. */
  lemma NoAssertionSupplierFails(s: Sbom, i: nat)
    requires i < |s.packages| && s.packages[i].supplier == Some(NoAssertion)
    ensures !Assess(s).packagesValid && !Assess(s).Conformant()
  {
    assert !PackageComplete(s.packages[i]);
  }
}
