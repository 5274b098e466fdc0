/**
  Worked examples: a conformant one-package SBOM, the same SBOM with a
  "NOASSERTION" supplier, and an SBOM with nothing in it.
 */
module Scenarios {
  import opened Options
  import opened Text
  import opened Sbom
  import opened Ntia
  import opened Licences
  import opened Trace
  import opened Generator

  /** One package libfoo 1.2 from Acme under MIT, one creator, one relationship, no files. */
  function Libfoo(supplier: string): Sbom {
    Sbom(
      Document(Some("SPDX"), Some("SPDX-2.3"), Some("libfoo-sbom"),
               [Creator("Organization", "Acme")], Some("2023-01-01T00:00:00Z")),
      [],
      [Package(Some("P1"), Some("libfoo"), Some("1.2"), Some(supplier), Some("MIT"))],
      [Relationship("P1", "DEPENDS_ON", "P0")])
  }

  /** A table over a one-item list has exactly that item, counted once. */
  lemma TabulateSingle(x: string)
    ensures Tabulate([x]) == [(x, 1)]
  {
    var f := Tabulate([x]);
    assert x in Keys(f);
    if |f| >= 2 {
      assert f[0].0 in [x] && f[1].0 in [x];
      assert Below(Keys(f)[0], Keys(f)[1]);
      BelowIrreflexive(x);
    }
    assert f[0].0 == x;
  }

  /** The libfoo SBOM is conformant and its licence table is the single row (MIT, 1). */
  lemma LibfooConformant()
    ensures Assess(Libfoo("Acme")).Conformant()
    ensures Tabulate(LicenceList(Libfoo("Acme"))) == [("MIT", 1)]
    ensures LicenceTable(Libfoo("Acme")).rows == [[Some("MIT"), Some("1")]]
  {
    var s := Libfoo("Acme");
    assert PackageComplete(s.packages[0]);
    assert LicenceList(s) == ["MIT"];
    TabulateSingle("MIT");
  }

  /** With supplier "NOASSERTION" only the package check fails, and with it the verdict. */
  lemma LibfooNoAssertion()
    ensures var v := Assess(Libfoo(NoAssertion));
      && !v.packagesValid
      && v.filesValid && v.creatorIdentified && v.creationTime && v.relationshipsValid
      && !v.Conformant()
      && ConformanceLine(v) == "NTIA conformant False"
  {
    NoAssertionSupplierFails(Libfoo(NoAssertion), 0);
  }

  /**
    Without files and packages both inventory checks hold vacuously, no
    inventory table is emitted, and the licence table is still emitted,
    empty.
   */
  lemma EmptyInventory(s: Sbom, filename: string)
    requires |s.files| == 0 && |s.packages| == 0
    ensures Assess(s).filesValid && Assess(s).packagesValid
    ensures Plan(s, filename) == [SummaryTable(s, filename), LicenceTable(s), NtiaTable(Assess(s))]
    ensures LicenceTable(s).rows == []
  {
    assert LicenceList(s) == [];
  }
}
