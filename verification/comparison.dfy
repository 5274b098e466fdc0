/**
  The builder-based Markdown report next to the legacy one: when every
  file and package has a licence the two have the same number of lines.
 */
module Comparison {
  import opened Sbom
  import opened Generator
  import opened Licences
  import opened LegacyMarkdown
  import opened LegacyProps
  import MarkdownBuilder
  import Reports
  import Scenarios

  /** What the builder-based report needs is implied by what the legacy report needs. */
  lemma RenderableIsReady(s: Sbom)
    requires Renderable(s)
    ensures Reports.MarkdownReady(s)
  {
    assert forall i :: 0 <= i < |s.files| ==> FileRenderable(s.files[i]);
  }

  /**
    The two reports differ in length only by their licence tables: the
    builder-based one has a row per distinct licence of `LicenceList`, the
    legacy one per distinct present licence.
   */
  lemma LengthsDifferByLicenceRows(s: Sbom, filename: string)
    requires Renderable(s)
    ensures MarkdownBuilder.AcceptsAll(Generate(s, filename))
    ensures |MarkdownBuilder.Render(Generate(s, filename))| + |Tabulate(LegacyLicenceList(s))|
         == |GenerateMarkdown(s, filename)| + |Tabulate(LicenceList(s))|
  {
    RenderableIsReady(s);
    Reports.MarkdownLength(s, filename);
    DocumentLength(s, filename);
  }

  /**
    With every licence present, both generators tabulate the same licences,
    so the two reports agree block by block on their line counts.
   */
  lemma MarkdownMatchesLegacy(s: Sbom, filename: string)
    requires Renderable(s) && Unlicensed(s) == 0
    ensures MarkdownBuilder.AcceptsAll(Generate(s, filename))
    ensures |MarkdownBuilder.Render(Generate(s, filename))| == |GenerateMarkdown(s, filename)|
  {
    LengthsDifferByLicenceRows(s, filename);
    FullyLicensedSameTable(s);
  }

  /** A single file without a licence: "NOT KNOWN" for one generator, nothing for the other. */
  lemma OneUnlicensedFile(s: Sbom)
    requires |s.files| == 1 && s.files[0].license.None? && |s.packages| == 0
    ensures LicenceList(s) == [NotKnown]
    ensures LegacyLicenceList(s) == []
  {
    assert |Present(Seqs.Map(FileLicenceField, s.files))| == 0;
  }

  /** An empty list tabulates to an empty table. */
  lemma TabulateEmpty()
    ensures Tabulate([]) == []
  {
  }

  /**
    A single file without a licence: the builder-based report lists it under
    "NOT KNOWN" in its licence table, the legacy report does not, so the
    builder-based report is one line longer.
   */
  lemma UnlicensedFileAddsLine(s: Sbom, filename: string)
    requires Renderable(s)
    requires |s.files| == 1 && s.files[0].license.None? && |s.packages| == 0
    ensures MarkdownBuilder.AcceptsAll(Generate(s, filename))
    ensures |MarkdownBuilder.Render(Generate(s, filename))| == |GenerateMarkdown(s, filename)| + 1
  {
    LengthsDifferByLicenceRows(s, filename);
    OneUnlicensedFile(s);
    Scenarios.TabulateSingle(NotKnown);
    TabulateEmpty();
  }
}
