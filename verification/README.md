# sbom2doc report generation in Dafny

sbom2doc turns a parsed Software Bill of Materials into a human-readable
report. This project models the part of it that decides what the report
says and how each document builder writes it down:

- `generate_document` (`sbom2doc/generator.py`) makes one pass over the
  SBOM. It drives a document builder through a fixed sequence of calls:
  - an SBOM Summary table;
  - a File Summary table and a Package Summary table, each only when the
    SBOM has such entries;
  - a License Summary frequency table;
  - an NTIA Summary table of the five minimum-element checks;
  - a closing "NTIA conformant True/False" paragraph;
  - `publish`.

  Here the pass is the pure function `Generator.Generate`, which returns
  that call sequence (`Trace.Call`).
- The three document builders, `JSONBuilder`, `MarkdownBuilder` and
  `HTMLBuilder` (`sbom2doc/docbuilder/`), are state machines. Each is
  modelled as a `Step` function over the builder's fields and a `Run` fold
  over a call sequence. `JsonBuilder` models the deferred commit: rows are
  stored under a title only when the next heading arrives, and `publish`
  forces the last commit with a heading titled "dummy".
- `generate_document` itself only ever creates the Markdown, PDF or
  console builder (`sbom2doc/generator.py:19-25`). The JSON and HTML
  results about a report (`Reports.JsonKeySet`, `Reports.JsonKeys`,
  `Reports.JsonSizes`, `Reports.ReportCensus`, `Reports.HtmlBalanced`)
  describe what those two builders would write if they were given the
  same call sequence.
- The legacy `generate_markdown` (`sbom2doc/markdown.py`) builds its list
  of Markdown strings directly, without a builder. It is modelled as
  `LegacyMarkdown.GenerateMarkdown` and compared with the builder-based
  report.

Each builder is proved against a reading of its input that does not
depend on how that builder works:
- JSON keys and array sizes are proved against `Trace.Outline`. It reads
  a call sequence as the list of sections a reader sees: titles, rows and
  paragraphs.
- The Markdown entry count of a report is proved against its table plan:
  three entries per table, one per row and one for the closing
  paragraph. Its last entry is that paragraph.
- Markdown heading and row entries are read back by a parser and a
  splitter, and give back the call's own arguments.
- The HTML tag census of a report is proved against the plan's table and
  row counts. Each call's census is the count of the fixed tag fragments
  it writes (`HtmlBuilder.CensusOf`).
- HTML cell fragments are unwrapped back to the call's own arguments.

Both Markdown generators write into a list of strings, and the counts
are of entries in that list. An entry is not always one printed line. A
builder heading is the single entry "\n# title\n", and the legacy section
openings are entries of the same shape, so each spans three printed
lines. How `SBOMOutput.generate_output` turns the list into a file is
not part of this model.

The report is proved to have the structure `generate_document` promises:
- section order;
- summary counts that read back as the collection sizes;
- a licence table of distinct, ascending, correctly counted licences that
  does not depend on input order;
- NTIA verdicts that hold exactly when their minimum elements are present.

The SBOM arrives as the datatype `Sbom.Sbom`. Every attribute the source
reads with `dict.get(key, default)` or a getter that can return `None` is an
`Option`, and `None` stands for the absent key.

Python raises an exception in three situations, and each is modelled as a
precondition rather than an error result, because the source does not
handle them:
- concatenating or joining `None`: `LegacyMarkdown.Renderable`,
  `MarkdownBuilder.AllPresent`, `Reports.MarkdownReady`;
- a row wider than the header list in the JSON builder:
  `JsonBuilder.Accepts`;
- a heading level outside the two title slots in the JSON builder:
  `JsonBuilder.Accepts`.

Behaviour of the code worth noting:
- Any format token other than "markdown" and "pdf" selects the console
  builder (`Generator.SelectBuilder`). No format token is rejected.
- The File Summary and Package Summary sections exist only when there are
  files or packages, so a report has between three and five sections
  (`GeneratorProps.PlanEnds`). Fed to the JSON builder, such a report has
  the same keys (`Reports.JsonKeys`).
- The JSON builder indexes its two title slots with `level - 1`. Level 1
  uses the first slot. Levels 2 and 0 both use the second slot, since
  Python's `element[-1]` is the last element. Levels above 2 raise. A
  level is a natural number in the model, so negative levels are not
  covered. In Python, level -1 would reach the first slot through
  `element[-2]`.
- In the JSON builder, rows are only committed under the title of the
  slot the next heading uses. A level-2 heading after a level-1 heading
  drops the rows collected so far, because the second slot is still
  untitled. The rows after it are later committed under the level-1
  title (`JsonBuilder.SubheadingDropsRows`). A reader sees two sections,
  and the JSON document has one key.
- The Markdown builder joins row values directly. A missing value raises
  instead of being written as an empty string. The HTML and JSON builders
  do write `None` as "".
- In the JSON builder, a later duplicate header in one row overwrites the
  earlier cell (`JsonBuilder.RowObject`).

## Model

| member | source | states |
|---|---|---|
| Generator.SelectBuilder | sbom2doc/generator.py:19-25 | The Markdown builder is chosen iff the format is "markdown" and the PDF builder iff it is "pdf". The console builder is chosen iff the format is neither, so any other token falls back to the console. |
| GeneratorProps.PlanEnds | sbom2doc/generator.py:27-114 | A report has three tables plus one per non-empty inventory. SBOM Summary comes first, License Summary second-to-last and NTIA Summary last. |
| GeneratorProps.SectionOrder | sbom2doc/generator.py:27-106 | Reading the calls back gives the section titles SBOM Summary, [File Summary], [Package Summary], License Summary, NTIA Summary in that order. File Summary appears iff there is a file, and Package Summary iff there is a package. |
| GeneratorProps.PlanTitles | sbom2doc/generator.py:48-71 | The tables' titles follow the same fixed order, with the two optional ones only when their collection is non-empty. |
| GeneratorProps.OptionalTitlesPresent | sbom2doc/generator.py:48-71 | In the fixed title list, File Summary occurs iff there are files and Package Summary iff there are packages. |
| GeneratorProps.GenerateEndsWithPublish | sbom2doc/generator.py:116-124 | The conformance paragraph is the second-to-last call. `publish` is the last call, and no earlier call is `publish`. |
| GeneratorProps.GenerateSections | sbom2doc/generator.py:27-123 | The outline has 3, 4 or 5 sections. The first holds the summary rows. The second-to-last holds the licence frequency rows. The last holds the five NTIA rows and, as its only paragraph, the conformance line. |
| GeneratorProps.SummaryRowsFacts | sbom2doc/generator.py:29-40 | The summary has 8 rows plus one per creator, each with two cells. The first row is the SBOM file name, and creator i is row 4+i as "kind:name". Created follows the creators. The Files, Packages and Relationships cells read back as decimal numbers equal to the three collection sizes. |
| GeneratorProps.SummaryRowsLayout | sbom2doc/generator.py:29-37 | Gives the summary's row count, two cells per row, the file-name row, one creator row per creator, and the Created row after the creators. |
| GeneratorProps.SummaryRowsCounts | sbom2doc/generator.py:38-40 | The last three summary rows parse back to the numbers of files, packages and relationships. |
| GeneratorProps.CountTotalOfTable | sbom2doc/generator.py:101-102 | The count column, parsed back from its decimal strings, sums to the table's total count. |
| GeneratorProps.LicenceListCoversInventory | sbom2doc/generator.py:61-82 | The licence list has one entry per file, then one per package, in order. An absent licence is entered as "NOT KNOWN". |
| GeneratorProps.LicenceRowsFacts | sbom2doc/generator.py:98-102 | The licence rows list each distinct licence exactly once, in strictly ascending string order. Each count reads back as its number of occurrences and is positive, and the counts sum to the list's length. |
| GeneratorProps.LicenceRowCells | sbom2doc/generator.py:101-102 | Each licence row's count cell parses back to that licence's number of occurrences, and is positive. |
| GeneratorProps.LicenceRowsAscending | sbom2doc/generator.py:99-102 | Licence rows come in strictly ascending order of licence. |
| GeneratorProps.LicenceRowsCover | sbom2doc/generator.py:99-102 | A licence has a row iff it occurs in the licence list. |
| GeneratorProps.LicenceSection | sbom2doc/generator.py:94-103 | The License Summary section of the outline has those frequency rows. Its counts total the number of files plus the number of packages. |
| GeneratorProps.LicenceSectionIgnoresOrder | sbom2doc/generator.py:98-100 | Two SBOMs whose files and packages differ only in order get the same License Summary section. |
| GeneratorProps.NtiaFacts | sbom2doc/generator.py:105-123 | There are five rows in fixed label order, each "True" or "False". Each row is "True" iff its minimum element is present, with package validity failing iff some package is incomplete. The conformance line says "True" iff all five checks hold. |
| GeneratorProps.NtiaSection | sbom2doc/generator.py:105-123 | The last section is NTIA Summary, with the five NTIA rows and the conformance paragraph. |
| Ntia.FilesValidIffAllComplete | sbom2doc/generator.py:52-66 | The file loop's `files_valid` flag ends true iff it started true and every file has an id and a name. |
| Ntia.PackagesValidIffAllComplete | sbom2doc/generator.py:75-91 | The package loop's `packages_valid` flag ends false iff it started false or some package lacks an id, name, version or supplier, or has supplier "NOASSERTION". |
| Ntia.Assess | sbom2doc/generator.py:33-91 | Each of the five checks holds iff its condition holds: all files complete, no incomplete package, at least one creator, a creation time, at least one relationship. |
| Ntia.NoAssertionSupplierFails | sbom2doc/generator.py:84-91 | A single package with supplier "NOASSERTION" makes the package check, and so the whole verdict, false. |
| Licences.Tabulate | sbom2doc/generator.py:98-100 | The frequency dict has strictly ascending keys, which are exactly the licences that occur. Each value is its key's positive number of occurrences, and the values sum to the list's length. |
| Licences.TabulateFacts | sbom2doc/generator.py:98-100 | The loop over the sorted list that stores `list.count(item)` yields that frequency table. |
| Licences.Store | sbom2doc/generator.py:100 | Storing a key not yet in the dict appends it at the end (dict insertion order). |
| Licences.StoreOverwrites | sbom2doc/generator.py:100 | Storing a key already in the dict overwrites its entry in place and keeps every other entry and the length. |
| Licences.StoreCountedKey | sbom2doc/generator.py:99-100 | Storing a key's own count again leaves the dict unchanged. |
| Licences.CountStep | sbom2doc/generator.py:99-100 | One loop turn keeps the loop invariant: keys ascending, counts correct, and the last key not above any remaining item. The visited item becomes a key. |
| Licences.CountStepSeen | sbom2doc/generator.py:99-100 | A repeated item of the sorted list leaves the dict as it was. |
| Licences.CountStepNew | sbom2doc/generator.py:99-100 | A new item goes to the end of the dict, above every earlier key. |
| Licences.CountSortedFacts | sbom2doc/generator.py:99-100 | The whole loop yields ascending keys with correct counts, covering exactly the earlier keys and the visited items. |
| Licences.SumCountsCoversMultiset | sbom2doc/generator.py:99-100 | Correct counts over distinct keys that name every element sum to the number of elements. |
| Licences.TabulateIgnoresOrder | sbom2doc/generator.py:98-100 | Permuting the licence list does not change the frequency table. |
| Sorting.Insert | sbom2doc/generator.py:99 | Inserting into an ascending list keeps it ascending and adds exactly that one element. |
| Sorting.Sort | sbom2doc/generator.py:99 | `sorted` returns an ascending permutation of its input. |
| Sorting.AscendingUnique | sbom2doc/generator.py:99 | Two ascending lists with the same elements are equal. |
| Sorting.SortDependsOnlyOnMultiset | sbom2doc/generator.py:99 | Inputs with the same elements sort to the same list. |
| Text.BelowIrreflexive | sbom2doc/generator.py:99 | No string sorts before itself. |
| Text.BelowTransitive | sbom2doc/generator.py:99 | String order is transitive. |
| Text.BelowTotal | sbom2doc/generator.py:99 | Any two different strings are ordered one way or the other. |
| Text.BelowAsymmetric | sbom2doc/generator.py:99 | If a sorts before b, then b does not sort before a. |
| Text.NotAboveTransitive | sbom2doc/generator.py:99 | Non-strict string order is transitive. |
| Text.NatToString | sbom2doc/generator.py:38-40 | `str(n)` is a non-empty string of decimal digits with no leading zero except for 0 itself. |
| Text.ParseNatToString | sbom2doc/generator.py:38-40 | Parsing `str(n)` as a decimal number gives back n. |
| Text.NatToStringInjective | sbom2doc/generator.py:38-40 | Different counts never print the same. |
| Text.RepeatChar | sbom2doc/docbuilder/markdownbuilder.py:14 | `"#" * level` is `level` characters long, all of them '#'. |
| Text.RepeatLength | sbom2doc/docbuilder/markdownbuilder.py:23 | `s * n` is n times as long as s. |
| Text.CountCharRepeat | sbom2doc/docbuilder/markdownbuilder.py:23 | `s * n` holds n times as many copies of a character as s does. |
| Text.SplitJoin | sbom2doc/docbuilder/markdownbuilder.py:22 | Splitting `sep.join(parts)` on sep gives the parts back, when no part holds the separator's marking character. |
| Trace.OutlineTable | sbom2doc/generator.py:27-41 | heading, createtable, the rows and showtable read as exactly one new section with that title and those rows. |
| Trace.OutlineTables | sbom2doc/generator.py:27-114 | A sequence of tables reads as one section per table, in order. |
| Trace.ReportOutline | sbom2doc/generator.py:27-124 | A report reads as one section per table. The closing paragraph lands in the last section, and `publish` reads as nothing. |
| Trace.ReportEnds | sbom2doc/generator.py:123-124 | The paragraph is the second-to-last call, and `publish` is the last call and the only one. |
| Trace.ReportTitles | sbom2doc/generator.py:27-124 | The section titles of a report are its tables' titles. |
| JsonBuilder.ApplyHeading | sbom2doc/docbuilder/jsonbuilder.py:16-20 | A heading stores the collected rows under the slot's previous title, unless that title is "", leaving every other key as it was. It then puts the new title in the slot, leaves the other slot, empties the collected rows and keeps the headers. |
| JsonBuilder.RowObject | sbom2doc/docbuilder/jsonbuilder.py:26-36 | The keys of a row object are exactly the headers of the first len(values) columns. |
| JsonBuilder.RowObjectValue | sbom2doc/docbuilder/jsonbuilder.py:26-36 | A header maps to the value at its last position, with a missing value as "". |
| JsonBuilder.RunRows | sbom2doc/docbuilder/jsonbuilder.py:26-36 | Adding rows only appends one object per row. The titles, headers and document stay unchanged. |
| JsonBuilder.StepTracks | sbom2doc/docbuilder/jsonbuilder.py:16-36 | For a heading of level 1 with a non-empty title, or any other non-publish call, the call keeps the builder in step with the outline: the open title, the collected row count, and the committed array sizes. |
| JsonBuilder.RunTracks | sbom2doc/docbuilder/jsonbuilder.py:16-36 | Calls with titled level-1 headings and fitting rows never raise, and keep the builder in step with the outline. |
| JsonBuilder.PublishTracks | sbom2doc/docbuilder/jsonbuilder.py:38-40 | The forced "dummy" heading commits the open section, so every section's row count is in the document. |
| JsonBuilder.SectionSizes | sbom2doc/docbuilder/jsonbuilder.py:16-42 | After `publish`, the array lengths of the document are the row counts of the sections read from the calls. A repeated title keeps the last section's count. |
| JsonBuilder.KeysAreTitles | sbom2doc/docbuilder/jsonbuilder.py:16-42 | For calls whose headings are all level 1 with non-empty titles, after `publish` the keys are exactly the section titles. With distinct titles, each array has one object per row of its section. |
| JsonBuilder.TwoTablesOneSection | sbom2doc/docbuilder/jsonbuilder.py:22-24 | `createtable` only replaces the headers, so two tables under one heading share one array, each row keyed by its own table's headers. |
| JsonBuilder.RepeatedTitleOverwrites | sbom2doc/docbuilder/jsonbuilder.py:16-20 | A second heading with the same title replaces the first section's array. |
| JsonBuilder.DummyIsNotAKey | sbom2doc/docbuilder/jsonbuilder.py:38-40 | For calls whose headings are all level 1 with non-empty titles, "dummy" never becomes a key unless some heading uses it. |
| JsonBuilder.SubheadingState | sbom2doc/docbuilder/jsonbuilder.py:16-36 | After a level-1 heading, a table, a row, a level-2 heading and a second row, nothing is committed, the first row is gone, and only the second row is collected. |
| JsonBuilder.SubheadingDropsRows | sbom2doc/docbuilder/jsonbuilder.py:16-20 | After `publish`, those calls give a document whose only key is the level-1 title, holding only the second row. A reader of the same calls sees two sections with one row each. |
| MarkdownBuilder.Step | sbom2doc/docbuilder/markdownbuilder.py:13-30 | A call keeps every earlier entry. It adds one entry for a heading, paragraph or row, two for a table header, and none for showtable or publish. |
| MarkdownBuilder.Run | sbom2doc/docbuilder/markdownbuilder.py:9-30 | A run of calls only appends to the document, adding the sum of the calls' entry counts. |
| MarkdownBuilder.HeadingReadBack | sbom2doc/docbuilder/markdownbuilder.py:13-15 | A heading entry parses back to its level (the number of '#') and its title, whatever the title holds. |
| MarkdownBuilder.RuleCellPipes | sbom2doc/docbuilder/markdownbuilder.py:23 | The rule cell contains exactly one pipe. |
| MarkdownBuilder.RuleColumns | sbom2doc/docbuilder/markdownbuilder.py:20-25 | The rule entry has one pipe per column and is 11 characters per column long. |
| MarkdownBuilder.HeaderReadBack | sbom2doc/docbuilder/markdownbuilder.py:22 | The header entry splits on the space-pipe-space separator back into the headers, when no header holds a pipe character. |
| MarkdownBuilder.RowReadBack | sbom2doc/docbuilder/markdownbuilder.py:27-30 | A row entry splits on the space-pipe-space separator back into its cells, when no cell holds a pipe character. |
| MarkdownBuilder.RunRows | sbom2doc/docbuilder/markdownbuilder.py:27-30 | Adding rows appends one row entry per row, in order. |
| MarkdownBuilder.TableLines | sbom2doc/docbuilder/markdownbuilder.py:13-30 | A table writes its heading entry, header entry and rule entry, then one entry per row, and showtable writes nothing. |
| HtmlBuilder.Step | sbom2doc/docbuilder/htmlbuilder.py:13-46 | A call keeps every earlier fragment. It adds one fragment for a heading, paragraph or showtable, four plus one per header for a table header, two plus one per value for a row, and none for publish. |
| HtmlBuilder.Run | sbom2doc/docbuilder/htmlbuilder.py:10-50 | A run of calls only appends fragments, adding the sum of the calls' fragment counts. |
| HtmlBuilder.HeadingVerbatim | sbom2doc/docbuilder/htmlbuilder.py:13-14 | A heading fragment unwraps to its title unchanged. |
| HtmlBuilder.ParagraphVerbatim | sbom2doc/docbuilder/htmlbuilder.py:16-17 | A paragraph fragment unwraps to its text unchanged. |
| HtmlBuilder.HeaderVerbatim | sbom2doc/docbuilder/htmlbuilder.py:19-29 | Header cell i is fragment i+2 of the table header and unwraps to header i. |
| HtmlBuilder.RowVerbatim | sbom2doc/docbuilder/htmlbuilder.py:31-43 | Data cell i is fragment i+1 of a row and unwraps to value i, with a missing value as "". |
| HtmlBuilder.CreateTableTags | sbom2doc/docbuilder/htmlbuilder.py:19-29 | A table header emits exactly the table, head and body openers and one row closer. |
| HtmlBuilder.AddRowTags | sbom2doc/docbuilder/htmlbuilder.py:31-43 | A row emits exactly one row opener and one row closer. |
| HtmlBuilder.CallTags | sbom2doc/docbuilder/htmlbuilder.py:13-46 | The fragments of any call contain exactly its bag of structural tags. |
| HtmlBuilder.RunTags | sbom2doc/docbuilder/htmlbuilder.py:10-50 | After a run, the document's tags are the starting tags plus those of the calls. |
| HtmlBuilder.Tags | sbom2doc/docbuilder/htmlbuilder.py:19-46 | Over any call sequence there is one table, head and body opener per createtable, one table closer per showtable, and one row opener per addrow. Every row closer is matched by a row opener or a head opener. |
| HtmlBuilder.TableCensus | sbom2doc/generator.py:27-41 | A table opens and shows one table and adds one row per row. |
| Reports.OutlineBeforePublish | sbom2doc/generator.py:123-124 | A report reads as the same sections with or without its final `publish`. |
| Reports.JsonOfReport | sbom2doc/docbuilder/jsonbuilder.py:16-42 | For titled tables with distinct titles and fitting rows, the JSON document has exactly one key per table title. Each key holds one object per row of its table. |
| Reports.SizeOfTable | sbom2doc/docbuilder/jsonbuilder.py:16-42 | Each table is a key of the JSON document, with one object per row. |
| Reports.PlanWellFormed | sbom2doc/generator.py:27-114 | Every table of a report is titled, and no row is wider than its table's headers. |
| Reports.SummaryTableFits | sbom2doc/generator.py:27-40 | Every summary row has two cells under two headers. |
| Reports.ClosingTablesFit | sbom2doc/generator.py:94-114 | Licence and NTIA rows have two cells under two headers. |
| Reports.InventoryTablesFit | sbom2doc/generator.py:48-92 | File and package rows have four cells under four headers. |
| Reports.PlanTitled | sbom2doc/generator.py:27-106 | The tables carry the fixed titles in order, so no two share a title. |
| Reports.PlanInventory | sbom2doc/generator.py:48-92 | The File Summary table is second when there are files. The Package Summary table follows it, or is second when there are no files. |
| Reports.JsonKeySet | sbom2doc/generator.py:27-124 | Given to the JSON builder, the calls of a report never raise, and its keys are the set of its section titles. |
| Reports.JsonKeys | sbom2doc/generator.py:27-124 | Given to the JSON builder, the calls of a report produce a document with exactly the keys SBOM Summary, License Summary and NTIA Summary, plus File Summary iff there are files and Package Summary iff there are packages. |
| Reports.JsonSizes | sbom2doc/generator.py:27-124 | Given to the JSON builder, the calls of a report produce arrays that hold the following numbers of objects: SBOM Summary, 8 plus one per creator; License Summary, one per distinct licence; NTIA Summary, 5; File Summary, one per file; Package Summary, one per package. |
| Reports.ReportCensus | sbom2doc/generator.py:27-124 | Counted as the HTML builder's table openers, row openers and table closers, the calls of a report open and show one table per table of its plan and add one row per row. |
| Reports.HtmlBalanced | sbom2doc/generator.py:27-124 | Given to the HTML builder, the calls of a report produce HTML with one table opener and one table closer per section, and every row closer is matched by a row or head opener. |
| Reports.MarkdownOfReport | sbom2doc/docbuilder/markdownbuilder.py:13-33 | The Markdown of a report whose rows hold only present values has three entries per table plus one per row plus one. Its last entry is the closing paragraph. |
| Reports.PlanComplete | sbom2doc/generator.py:29-83 | When the document fields and each file's name and each package's name, version and supplier are present, every cell the report adds is a string. |
| Reports.PlanRowTotal | sbom2doc/generator.py:27-114 | A report's rows: 8 plus one per creator, one per file, one per package, one per distinct licence, and 5. |
| Reports.MarkdownLength | sbom2doc/generator.py:27-124 | The report's Markdown has 11 entries plus one per creator, then 3 plus one per file and 3 plus one per package when present, then 3 plus one per distinct licence, then 8 and one closing entry. |
| Reports.MarkdownLastLine | sbom2doc/generator.py:123-124 | The last Markdown entry is "NTIA conformant True/False". |
| Reports.LastLineOfReport | sbom2doc/docbuilder/markdownbuilder.py:17-18 | The paragraph before `publish` is the last entry written. |
| LegacyMarkdown.Present | sbom2doc/markdown.py:51-56 | The licences collected are exactly the present ones, each as often as it occurs. The absent ones account for the rest of the list. |
| LegacyProps.CellReadBack | sbom2doc/markdown.py:21-32 | A two-column entry (pipe, caption, pipe, value, pipe) unwraps to its value unchanged. |
| LegacyProps.CountReadBack | sbom2doc/markdown.py:30-32 | A count entry reads back as the decimal number it was given. |
| LegacyProps.SummaryBlockFacts | sbom2doc/markdown.py:18-29 | The summary block has 11 entries plus one per creator. It starts with the heading, has creator i at entry 7+i, and has the creation time right after the creators. |
| LegacyProps.SummaryCounts | sbom2doc/markdown.py:30-32 | The Files, Packages and Relationships entries read back as the three collection sizes. |
| LegacyProps.FileBlockFacts | sbom2doc/markdown.py:39-67 | The File Summary block is non-empty iff there are files. It then has three header entries and one entry per file, in order. |
| LegacyProps.PackageBlockFacts | sbom2doc/markdown.py:71-99 | The Package Summary block is non-empty iff there are packages. It then has three header entries and one entry per package, in order. |
| LegacyProps.FileLineMatchesBuilder | sbom2doc/markdown.py:57-67 | A legacy file entry is the builder's row entry for the same file, framed by a leading pipe-space and a trailing space-pipe. |
| LegacyProps.PackageLineMatchesBuilder | sbom2doc/markdown.py:89-99 | A legacy package entry is the builder's row entry for the same package, framed by a leading pipe-space and a trailing space-pipe. |
| LegacyProps.LicenceBlockFacts | sbom2doc/markdown.py:109-117 | The licence block lists the present licences once each, in ascending order. Each has its number of occurrences and a trailing pipe-space. |
| LegacyProps.LegacyLicenceCount | sbom2doc/markdown.py:51-56 | The legacy counts plus the number of unlicensed files and packages equal the number of files plus packages. |
| LegacyProps.LicenceListsAgree | sbom2doc/markdown.py:51-56 | The two generators' licence lists agree on every licence except "NOT KNOWN". The builder-based list has one more "NOT KNOWN" per file or package without a licence. |
| LegacyProps.FullyLicensedSameTable | sbom2doc/markdown.py:113-115 | When every file and package has a licence, both generators tabulate the same licences. |
| LegacyProps.NtiaBlockFacts | sbom2doc/markdown.py:119-139 | The NTIA block has 8 entries, with the five status entries unwrapping to the five checks. The final entry says True iff all five hold. |
| LegacyProps.CreationTimeAlwaysTrue | sbom2doc/markdown.py:29-33 | Whenever the report can be built, the creation time is reported as identified. |
| LegacyProps.DocumentLength | sbom2doc/markdown.py:16-139 | The legacy report's length, block by block: the summary, the optional file and package blocks, the licence block, the NTIA block and the final entry. |
| Comparison.LengthsDifferByLicenceRows | sbom2doc/markdown.py:51-56 | Whenever the legacy report can be built, the builder-based Markdown is as long as the legacy one, less the legacy licence rows, plus one row per distinct licence of the builder-based list, which also counts "NOT KNOWN". |
| Comparison.MarkdownMatchesLegacy | sbom2doc/markdown.py:51-56 | When every file and package has a licence, the builder-based Markdown and the legacy Markdown have the same number of entries. |
| Comparison.OneUnlicensedFile | sbom2doc/generator.py:61-63 | For a single file without a licence and no packages, the builder-based licence list is one "NOT KNOWN" and the legacy list is empty. |
| Comparison.UnlicensedFileAddsLine | sbom2doc/markdown.py:53-56 | For that SBOM the builder-based Markdown is one entry longer than the legacy Markdown, so the two entry counts differ once a licence is missing. |
| Scenarios.TabulateSingle | sbom2doc/generator.py:98-100 | A one-item licence list tabulates to that item with count 1. |
| Scenarios.LibfooConformant | sbom2doc/generator.py:105-123 | A one-package SBOM with all minimum elements is conformant, and its licence table is the single row (MIT, 1). |
| Scenarios.LibfooNoAssertion | sbom2doc/generator.py:84-91 | The same SBOM with supplier "NOASSERTION" fails only the package check, and its conformance line says False. |
| Scenarios.EmptyInventory | sbom2doc/generator.py:44-71 | Without files and packages, both inventory checks hold vacuously and neither inventory table is emitted. The licence table is emitted and empty. |

## Left out

- Writing the document (`publish` handing the buffer to `SBOMOutput`): this is file I/O. `publish` is modelled only for its effect on the builder's state. For the JSON builder that effect is the final forced commit.
- The console and PDF builders (`ConsoleBuilder`, `PDFBuilder`) and the console and PDF report modules: they are not part of this model. `Generator.SelectBuilder` only names which builder a format picks.
- The `DocBuilder` base class (docbuilder.py) is not part of this model. The builders' inherited `showtable` and `paragraph`, where a builder does not override them, are taken to do nothing.
- Column widths passed to `showtable` and the `validate` argument of `createtable`: they affect only console and PDF layout.
- The SBOM parser (lib4sbom) and `SBOMDocument`: the parsed SBOM is the input datatype. Which attributes a parser fills is not modelled.
- Python exceptions: concatenating or joining `None`, a row wider than its headers in the JSON builder, and a heading level above 2 in the JSON builder. These are preconditions, not error results, since the source does not catch them.
- JsonBuilder.SectionSizes: covers call sequences whose headings are all level 1 with non-empty titles, which is every sequence `generate_document` issues. The second title slot used by levels 0 and 2 is modelled in `JsonBuilder.ApplyHeading` but not followed through the outline.
- JsonBuilder.Render: the JSON document and its row objects are modelled as maps, so the order of keys in the written JSON is not modelled. In the source, sections appear in commit order, a title written twice keeps its first position, and row keys follow the header order.
- JsonBuilder.KeysAreTitles: covers only call sequences whose headings are all level 1 with non-empty titles. Other sequences can drop rows or file them under an earlier title, as `JsonBuilder.SubheadingDropsRows` shows, so the keys are not the outline titles there.
- JsonBuilder.DummyIsNotAKey: covers the same call sequences as `JsonBuilder.KeysAreTitles`, for the same reason.
- JsonBuilder.StepTracks: covers headings of level 1 with non-empty titles only, for the same reason.
- Negative heading levels: `Call.level` is a natural number, so the JSON builder's reach into `element[-2]` for level -1 is not modelled.
- HtmlBuilder.Tags: states balance as counts of the fixed tag fragments. It does not parse the interpolated text, which is not escaped, so a title or cell containing markup is outside its statement.
- MarkdownBuilder.HeaderReadBack: read-back is stated only for cells without a pipe. The builder does not escape pipes, so a cell that holds one cannot be recovered.
- Text.SplitJoin: holds only when no part contains the separator's marking character, for the same reason.
