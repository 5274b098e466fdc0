/**
  `HTMLBuilder`: an append-only list of HTML fragments. Titles, text and
  cells are interpolated as they are, without escaping; a missing cell
  becomes the empty string. `publish` adds nothing to the list.
 */
module HtmlBuilder {
  import opened Options
  import opened Text
  import opened Seqs
  import opened Trace

  /** The Bootstrap classes of the table and of its body. */
  const TableClasses := "'table table-striped table-bordered'"
  const BodyClasses := "'table-group-divider'"

  const TableOpen := "<table class=" + TableClasses + ">\n"
  const HeadOpen := "<thead><tr>\n"
  const RowClose := "</tr>\n"
  const BodyOpen := "</thead><tbody class=" + BodyClasses + ">\n"
  const RowOpen := "<tr>\n"
  const TableClose := "</tbody></table>\n"

  /** The fixed fragments that open and close tables and rows. */
  predicate IsTag(f: string) {
    f == TableOpen || f == HeadOpen || f == RowClose || f == BodyOpen || f == RowOpen || f == TableClose
  }

  function HeadingStart(level: nat): string {
    "\n<h" + NatToString(level) + ">"
  }

  function HeadingEnd(level: nat): string {
    "</h" + NatToString(level) + ">\n"
  }

  function HeadingFragment(level: nat, title: string): string {
    HeadingStart(level) + title + HeadingEnd(level)
  }

  function ParagraphFragment(text: string): string {
    "<p>" + text + "</p>"
  }

  function HeaderCell(header: string): string {
    "<th scope='col'>" + header + "</th>\n"
  }

  function DataCell(value: string): string {
    "<td>" + value + "</td>\n"
  }

  /** `None` becomes the empty cell. */
  function CellText(value: Option<string>): string {
    value.GetOr("")
  }

  /** The fragments one call appends. */
  function Fragments(c: Call): seq<string> {
    match c
    case Heading(level, title) => [HeadingFragment(level, title)]
    case Paragraph(text) => [ParagraphFragment(text)]
    case CreateTable(headers) => [TableOpen, HeadOpen] + Map(HeaderCell, headers) + [RowClose, BodyOpen]
    case AddRow(values) => [RowOpen] + Map(DataCell, Map(CellText, values)) + [RowClose]
    case ShowTable => [TableClose]
    case Publish => []
  }

  /** How many fragments each call adds. */
  function FragmentCount(c: Call): nat {
    match c
    case Heading(_, _) => 1
    case Paragraph(_) => 1
    case CreateTable(headers) => 4 + |headers|
    case AddRow(values) => |values| + 2
    case ShowTable => 1
    case Publish => 0
  }

  function FragmentTotal(t: seq<Call>): nat {
    if |t| == 0 then 0 else FragmentCount(t[0]) + FragmentTotal(t[1..])
  }

  /** One call: the earlier fragments stay as they were, and the count grows by the call's fragment count. */
  function Step(doc: seq<string>, c: Call): (r: seq<string>)
    ensures |r| == |doc| + FragmentCount(c)
    ensures r[..|doc|] == doc
  {
    doc + Fragments(c)
  }

  /** A run of calls only ever appends, `FragmentTotal` fragments in all. */
  function Run(doc: seq<string>, t: seq<Call>): (r: seq<string>)
    ensures |r| == |doc| + FragmentTotal(t)
    ensures r[..|doc|] == doc
    decreases |t|
  {
    if |t| == 0 then doc
    else
      var r := Run(Step(doc, t[0]), t[1..]);
      assert r[..|doc|] == Step(doc, t[0])[..|doc|];
      r
  }

  /** The finished document, one entry per fragment. */
  function Render(t: seq<Call>): seq<string> {
    Run([], t)
  }

  lemma {:induction false} RunAppend(doc: seq<string>, a: seq<Call>, b: seq<Call>)
    ensures Run(doc, a + b) == Run(Run(doc, a), b)
    decreases |a|
  {
    if |a| == 0 {
      assert a + b == b;
    } else {
      assert (a + b)[1..] == a[1..] + b;
      RunAppend(Step(doc, a[0]), a[1..], b);
    }
  }

  /** A heading fragment gives back its title unchanged. */
  lemma HeadingVerbatim(level: nat, title: string)
    ensures Unwrap(HeadingFragment(level, title), HeadingStart(level), HeadingEnd(level)) == Some(title)
  {
    UnwrapWrapped(HeadingStart(level), title, HeadingEnd(level));
  }

  /** A paragraph fragment gives back its text unchanged. */
  lemma ParagraphVerbatim(text: string)
    ensures Unwrap(ParagraphFragment(text), "<p>", "</p>") == Some(text)
  {
    UnwrapWrapped("<p>", text, "</p>");
  }

  /** Each data cell of a row gives back its value, "" for a missing one. */
  lemma RowVerbatim(values: seq<Option<string>>, i: nat)
    requires i < |values|
    ensures Fragments(AddRow(values))[i + 1] == DataCell(CellText(values[i]))
    ensures Unwrap(Fragments(AddRow(values))[i + 1], "<td>", "</td>\n") == Some(values[i].GetOr(""))
  {
    UnwrapWrapped("<td>", CellText(values[i]), "</td>\n");
  }

  /** Each header cell of a table gives back its header. */
  lemma HeaderVerbatim(headers: seq<string>, i: nat)
    requires i < |headers|
    ensures Fragments(CreateTable(headers))[i + 2] == HeaderCell(headers[i])
    ensures Unwrap(Fragments(CreateTable(headers))[i + 2], "<th scope='col'>", "</th>\n") == Some(headers[i])
  {
    UnwrapWrapped("<th scope='col'>", headers[i], "</th>\n");
  }

  /** The first four characters of the tags, which tell them apart from each other and from cells. */
  lemma TagPrefixes()
    ensures TableOpen[..4] == "<tab"
    ensures HeadOpen[..4] == "<the"
    ensures RowClose[..4] == "</tr"
    ensures BodyOpen[..4] == "</th"
    ensures RowOpen[..4] == "<tr>"
    ensures TableClose[..4] == "</tb"
  {
  }

  /** A fragment whose first four characters differ from every tag's is no tag. */
  lemma NotTagByPrefix(f: string)
    requires |f| >= 4
    requires f[..4] !in {"<tab", "<the", "</tr", "</th", "<tr>", "</tb"}
    ensures !IsTag(f)
  {
    TagPrefixes();
  }

  lemma HeaderCellNotTag(h: string)
    ensures !IsTag(HeaderCell(h))
  {
    assert HeaderCell(h)[..4] == "<th ";
    NotTagByPrefix(HeaderCell(h));
  }

  lemma DataCellNotTag(v: string)
    ensures !IsTag(DataCell(v))
  {
    assert DataCell(v)[..4] == "<td>";
    NotTagByPrefix(DataCell(v));
  }

  lemma ParagraphNotTag(text: string)
    ensures !IsTag(ParagraphFragment(text))
  {
    var f := ParagraphFragment(text);
    assert f[1] == 'p';
    TagPrefixes();
    assert TableOpen[1] == HeadOpen[1] == RowOpen[1] == 't';
    assert RowClose[1] == BodyOpen[1] == TableClose[1] == '/';
  }

  lemma HeadingNotTag(level: nat, title: string)
    ensures !IsTag(HeadingFragment(level, title))
  {
    var f := HeadingFragment(level, title);
    assert f[0] == '\n';
    TagPrefixes();
    assert TableOpen[0] == HeadOpen[0] == RowClose[0] == BodyOpen[0] == RowOpen[0] == TableClose[0] == '<';
  }

  /** The six tags are different strings. */
  lemma TagsDistinct()
    ensures TableOpen != HeadOpen && TableOpen != RowClose && TableOpen != BodyOpen && TableOpen != RowOpen && TableOpen != TableClose
    ensures HeadOpen != RowClose && HeadOpen != BodyOpen && HeadOpen != RowOpen && HeadOpen != TableClose
    ensures RowClose != BodyOpen && RowClose != RowOpen && RowClose != TableClose
    ensures BodyOpen != RowOpen && BodyOpen != TableClose
    ensures RowOpen != TableClose
  {
    TagPrefixes();
  }

  /** The tags each call emits, as a bag. */
  function TagsOf(c: Call): multiset<string> {
    match c
    case CreateTable(_) => multiset{TableOpen, HeadOpen, RowClose, BodyOpen}
    case AddRow(_) => multiset{RowOpen, RowClose}
    case ShowTable => multiset{TableClose}
    case _ => multiset{}
  }

  /** A list of fragments none of which is a tag contributes no tag. */
  lemma NoTags(fs: seq<string>, f: string)
    requires IsTag(f)
    requires forall i :: 0 <= i < |fs| ==> !IsTag(fs[i])
    ensures multiset(fs)[f] == 0
  {
  }

  lemma HeaderCellsNotTags(headers: seq<string>, f: string)
    requires IsTag(f)
    ensures multiset(Map(HeaderCell, headers))[f] == 0
  {
    var cells := Map(HeaderCell, headers);
    forall i | 0 <= i < |cells| ensures !IsTag(cells[i]) {
      HeaderCellNotTag(headers[i]);
    }
    NoTags(cells, f);
  }

  lemma DataCellsNotTags(values: seq<Option<string>>, f: string)
    requires IsTag(f)
    ensures multiset(Map(DataCell, Map(CellText, values)))[f] == 0
  {
    var cells := Map(DataCell, Map(CellText, values));
    forall i | 0 <= i < |cells| ensures !IsTag(cells[i]) {
      DataCellNotTag(Map(CellText, values)[i]);
    }
    NoTags(cells, f);
  }

  /** Cells that hold no `f`, between an opening and a closing list, add no `f`. */
  lemma Bracketed(open: seq<string>, cells: seq<string>, close: seq<string>, f: string)
    requires multiset(cells)[f] == 0
    ensures multiset(open + cells + close)[f] == multiset(open)[f] + multiset(close)[f]
  {
    assert multiset(open + cells + close) == multiset(open) + multiset(cells) + multiset(close);
  }

  /** The fragments of one call hold exactly its bag of tags. */
  lemma CallTags(c: Call, f: string)
    requires IsTag(f)
    ensures multiset(Fragments(c))[f] == TagsOf(c)[f]
  {
    match c
    case Heading(level, title) => {
      HeadingTags(level, title, f);
    }
    case Paragraph(text) => {
      ParagraphTags(text, f);
    }
    case CreateTable(headers) => {
      CreateTableTags(headers, f);
    }
    case AddRow(values) => {
      AddRowTags(values, f);
    }
    case ShowTable => {
    }
    case Publish => {
    }
  }

  lemma HeadingTags(level: nat, title: string, f: string)
    requires IsTag(f)
    ensures multiset(Fragments(Heading(level, title)))[f] == 0
  {
    HeadingNotTag(level, title);
  }

  lemma ParagraphTags(text: string, f: string)
    requires IsTag(f)
    ensures multiset(Fragments(Paragraph(text)))[f] == 0
  {
    ParagraphNotTag(text);
  }

  lemma CreateTableTags(headers: seq<string>, f: string)
    requires IsTag(f)
    ensures multiset(Fragments(CreateTable(headers)))[f] == multiset{TableOpen, HeadOpen, RowClose, BodyOpen}[f]
  {
    HeaderCellsNotTags(headers, f);
    Bracketed([TableOpen, HeadOpen], Map(HeaderCell, headers), [RowClose, BodyOpen], f);
    assert multiset{TableOpen, HeadOpen} + multiset{RowClose, BodyOpen} == multiset{TableOpen, HeadOpen, RowClose, BodyOpen};
  }

  lemma AddRowTags(values: seq<Option<string>>, f: string)
    requires IsTag(f)
    ensures multiset(Fragments(AddRow(values)))[f] == multiset{RowOpen, RowClose}[f]
  {
    DataCellsNotTags(values, f);
    Bracketed([RowOpen], Map(DataCell, Map(CellText, values)), [RowClose], f);
    assert multiset{RowOpen} + multiset{RowClose} == multiset{RowOpen, RowClose};
  }

  /** The bag of tags a call sequence emits. */
  function TagBag(t: seq<Call>): multiset<string> {
    if |t| == 0 then multiset{} else TagsOf(t[0]) + TagBag(t[1..])
  }

  /** The fragments of a run hold exactly the starting tags plus those of the calls. */
  lemma {:induction false} RunTags(doc: seq<string>, t: seq<Call>, f: string)
    requires IsTag(f)
    ensures multiset(Run(doc, t))[f] == multiset(doc)[f] + TagBag(t)[f]
    decreases |t|
  {
    if |t| > 0 {
      CallTags(t[0], f);
      RunTags(Step(doc, t[0]), t[1..], f);
    }
  }

  /** How many tables are opened, rows added and tables shown. */
  datatype Census = Census(tables: nat, rows: nat, shown: nat)

  function CensusOf(t: seq<Call>): Census {
    if |t| == 0 then Census(0, 0, 0)
    else
      var rest := CensusOf(t[1..]);
      match t[0]
      case CreateTable(_) => rest.(tables := rest.tables + 1)
      case AddRow(_) => rest.(rows := rest.rows + 1)
      case ShowTable => rest.(shown := rest.shown + 1)
      case _ => rest
  }

  /** The tag counts of one call. */
  lemma TagsOfCounts(c: Call)
    ensures TagsOf(c)[TableOpen] == (if c.CreateTable? then 1 else 0)
    ensures TagsOf(c)[HeadOpen] == (if c.CreateTable? then 1 else 0)
    ensures TagsOf(c)[BodyOpen] == (if c.CreateTable? then 1 else 0)
    ensures TagsOf(c)[RowOpen] == (if c.AddRow? then 1 else 0)
    ensures TagsOf(c)[RowClose] == (if c.CreateTable? || c.AddRow? then 1 else 0)
    ensures TagsOf(c)[TableClose] == (if c.ShowTable? then 1 else 0)
  {
    TagsDistinct();
  }

  lemma {:induction false} TagBagCensus(t: seq<Call>)
    ensures TagBag(t)[TableOpen] == CensusOf(t).tables
    ensures TagBag(t)[HeadOpen] == CensusOf(t).tables
    ensures TagBag(t)[BodyOpen] == CensusOf(t).tables
    ensures TagBag(t)[RowOpen] == CensusOf(t).rows
    ensures TagBag(t)[RowClose] == CensusOf(t).tables + CensusOf(t).rows
    ensures TagBag(t)[TableClose] == CensusOf(t).shown
  {
    if |t| > 0 {
      TagBagCensus(t[1..]);
      TagsOfCounts(t[0]);
    }
  }

  /**
    Over any call sequence: one table opener (with its head and body
    openers) per `createtable`, one closer per `showtable`, one row opener
    per `addrow`, and every row closer matched by a row opener or a head
    opener.
   */
  lemma Tags(t: seq<Call>)
    ensures var frags := multiset(Render(t));
      && frags[TableOpen] == CensusOf(t).tables
      && frags[HeadOpen] == CensusOf(t).tables
      && frags[BodyOpen] == CensusOf(t).tables
      && frags[RowOpen] == CensusOf(t).rows
      && frags[TableClose] == CensusOf(t).shown
      && frags[RowOpen] + frags[HeadOpen] == frags[RowClose]
  {
    TagBagCensus(t);
    RunTags([], t, TableOpen);
    RunTags([], t, HeadOpen);
    RunTags([], t, BodyOpen);
    RunTags([], t, RowOpen);
    RunTags([], t, RowClose);
    RunTags([], t, TableClose);
  }

  lemma {:induction false} CensusAppend(a: seq<Call>, b: seq<Call>)
    ensures CensusOf(a + b) == Census(CensusOf(a).tables + CensusOf(b).tables,
                                      CensusOf(a).rows + CensusOf(b).rows,
                                      CensusOf(a).shown + CensusOf(b).shown)
    decreases |a|
  {
    if |a| == 0 {
      assert a + b == b;
    } else {
      assert (a + b)[0] == a[0] && (a + b)[1..] == a[1..] + b;
      CensusAppend(a[1..], b);
    }
  }

  lemma {:induction false} CensusRows(rows: seq<seq<Option<string>>>)
    ensures CensusOf(Rows(rows)) == Census(0, |rows|, 0)
    decreases |rows|
  {
    if |rows| > 0 {
      assert Rows(rows)[1..] == Rows(rows[1..]);
      CensusRows(rows[1..]);
    }
  }

  /** A table opens and closes exactly one table and adds one row per row. */
  lemma TableCensus(title: string, headers: seq<string>, rows: seq<seq<Option<string>>>)
    ensures CensusOf(Table(title, headers, rows)) == Census(1, |rows|, 1)
  {
    var a := [Heading(1, title), CreateTable(headers)];
    assert a[1..] == [CreateTable(headers)] && a[1..][1..] == [];
    assert CensusOf(a[1..]) == Census(1, 0, 0);
    assert CensusOf(a) == Census(1, 0, 0);
    CensusRows(rows);
    CensusAppend(a, Rows(rows));
    assert [ShowTable][1..] == [];
    CensusAppend(a + Rows(rows), [ShowTable]);
  }
}
