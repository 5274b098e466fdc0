/**
  `JSONBuilder`: rows are collected for the current section and only
  committed to the document, under the title of the previous heading at the
  same level, when the next heading arrives; `publish` forces that last
  commit with a heading titled "dummy".
 */
module JsonBuilder {
  import opened Options
  import opened Trace

  /** One row object: column header to cell text. */
  type Row = map<string, string>

  /** The JSON document: section title to its array of row objects. */
  type Document = map<string, seq<Row>>

  /**
    The builder's fields: `json_document`, the two title slots of
    `element`, `element_data` and `attribute_headings`.
   */
  datatype State = State(doc: Document, top: string, sub: string, data: seq<Row>, headers: seq<string>)

  /** Both title slots start as "" and nothing is collected. */
  const Init: State := State(map[], "", "", [], [])

  /** The title slot `element[level - 1]` (level 0 reaches `element[-1]`, the second slot). */
  function Slot(s: State, level: nat): string
    requires level <= 2
  {
    if level == 1 then s.top else s.sub
  }

  /**
    `heading(level, title)`: commits the collected rows under the slot's
    previous title unless that is "", then records the new title and starts
    an empty row list.
   */
  function ApplyHeading(s: State, level: nat, title: string): (r: State)
    requires level <= 2
    ensures Slot(r, level) == title
    ensures level == 1 ==> r.sub == s.sub
    ensures level != 1 ==> r.top == s.top
    ensures r.data == [] && r.headers == s.headers
    ensures Slot(s, level) == "" ==> r.doc == s.doc
    ensures Slot(s, level) != "" ==>
      && r.doc.Keys == s.doc.Keys + {Slot(s, level)}
      && r.doc[Slot(s, level)] == s.data
      && forall k :: k in s.doc && k != Slot(s, level) ==> r.doc[k] == s.doc[k]
  {
    var current := Slot(s, level);
    var doc := if current != "" then s.doc[current := s.data] else s.doc;
    if level == 1 then s.(doc := doc, top := title, data := [])
    else s.(doc := doc, sub := title, data := [])
  }

  /**
    The object `addrow` builds: `headers[i]` maps to `values[i]`, a `None`
    value to "", and a later duplicate header overwrites an earlier one.
   */
  function RowObject(headers: seq<string>, values: seq<Option<string>>): (r: Row)
    requires |values| <= |headers|
    ensures r.Keys == set i | 0 <= i < |values| :: headers[i]
  {
    if |values| == 0 then map[]
    else
      var n := |values| - 1;
      var r := RowObject(headers, values[..n])[headers[n] := values[n].GetOr("")];
      assert (set i | 0 <= i < |values| :: headers[i]) == (set i | 0 <= i < n :: headers[i]) + {headers[n]};
      r
  }

  /** The cell of a header is the value at its last position; a missing value reads as "". */
  lemma {:induction false} RowObjectValue(headers: seq<string>, values: seq<Option<string>>, i: nat)
    requires |values| <= |headers| && i < |values|
    requires forall j :: i < j < |values| ==> headers[j] != headers[i]
    ensures headers[i] in RowObject(headers, values)
    ensures RowObject(headers, values)[headers[i]] == values[i].GetOr("")
  {
    var n := |values| - 1;
    if i < n {
      RowObjectValue(headers, values[..n], i);
    }
  }

  /** What the builder can take without raising: heading levels 0 to 2, rows no wider than the headers. */
  predicate Accepts(s: State, c: Call) {
    match c
    case Heading(level, _) => level <= 2
    case AddRow(values) => |values| <= |s.headers|
    case _ => true
  }

  /** One call; `showtable` and `paragraph` are inherited no-ops. */
  function Step(s: State, c: Call): State
    requires Accepts(s, c)
  {
    match c
    case Heading(level, title) => ApplyHeading(s, level, title)
    case CreateTable(headers) => s.(headers := headers)
    case AddRow(values) => s.(data := s.data + [RowObject(s.headers, values)])
    case ShowTable => s
    case Paragraph(_) => s
    case Publish => ApplyHeading(s, 1, "dummy")
  }

  predicate Runs(s: State, t: seq<Call>)
    decreases |t|
  {
    |t| == 0 || (Accepts(s, t[0]) && Runs(Step(s, t[0]), t[1..]))
  }

  function Run(s: State, t: seq<Call>): State
    requires Runs(s, t)
    decreases |t|
  {
    if |t| == 0 then s else Run(Step(s, t[0]), t[1..])
  }

  /** The document after a whole call sequence. */
  function Render(t: seq<Call>): Document
    requires Runs(Init, t)
  {
    Run(Init, t).doc
  }

  lemma {:induction false} RunAppend(s: State, a: seq<Call>, b: seq<Call>)
    requires Runs(s, a)
    ensures Runs(s, a + b) <==> Runs(Run(s, a), b)
    ensures Runs(s, a + b) ==> Run(s, a + b) == Run(Run(s, a), b)
    decreases |a|
  {
    if |a| == 0 {
      assert a + b == b;
    } else {
      assert (a + b)[0] == a[0] && (a + b)[1..] == a[1..] + b;
      RunAppend(Step(s, a[0]), a[1..], b);
    }
  }

  lemma RunOne(s: State, c: Call)
    requires Accepts(s, c)
    ensures Runs(s, [c]) && Run(s, [c]) == Step(s, c)
  {
    assert [c][1..] == [];
  }

  /** The array length of every key. */
  function Lengths(d: Document): (m: map<string, nat>)
    ensures m.Keys == d.Keys
  {
    map k | k in d :: |d[k]|
  }

  /**
    Section title to row count, read left to right, a later section with
    the same title replacing an earlier one.
   */
  function RowCounts(o: seq<Section>): map<string, nat> {
    if |o| == 0 then map[]
    else RowCounts(o[..|o| - 1])[o[|o| - 1].title := |o[|o| - 1].rows|]
  }

  /** The calls the simulation covers: only non-empty level-1 headings, no `publish`. */
  predicate Plain(t: seq<Call>) {
    forall i :: 0 <= i < |t| ==> t[i] != Publish && (t[i].Heading? ==> t[i].level == 1 && t[i].title != "")
  }

  /** Every row is no wider than the header list of the table before it (`width` before the first). */
  predicate FitsFrom(width: nat, t: seq<Call>)
    decreases |t|
  {
    if |t| == 0 then true
    else match t[0]
      case CreateTable(headers) => FitsFrom(|headers|, t[1..])
      case AddRow(values) => |values| <= width && FitsFrom(width, t[1..])
      case _ => FitsFrom(width, t[1..])
  }

  /** How the builder's state relates to the sections read so far. */
  predicate Tracks(s: State, o: seq<Section>) {
    && (forall i :: 0 <= i < |o| ==> o[i].title != "")
    && (|o| == 0 ==> s.top == "" && s.doc == map[])
    && (|o| > 0 ==>
          && s.top == o[|o| - 1].title
          && |s.data| == |o[|o| - 1].rows|
          && Lengths(s.doc) == RowCounts(o[..|o| - 1]))
  }

  lemma StepTracks(s: State, o: seq<Section>, c: Call)
    requires Tracks(s, o) && Accepts(s, c) && c != Publish
    requires c.Heading? ==> c.level == 1 && c.title != ""
    ensures Tracks(Step(s, c), OutlineStep(o, c))
  {
    var r := Step(s, c);
    var o' := OutlineStep(o, c);
    match c
    case Heading(level, title) => {
      assert o'[..|o'| - 1] == o;
      if |o| > 0 {
        assert Lengths(r.doc) == Lengths(s.doc)[s.top := |s.data|];
      }
    }
    case AddRow(values) => {
      if |o| > 0 {
        assert o'[..|o'| - 1] == o[..|o| - 1];
      }
    }
    case Paragraph(text) => {
      if |o| > 0 {
        assert o'[..|o'| - 1] == o[..|o| - 1];
      }
    }
    case CreateTable(headers) => {
    }
    case ShowTable => {
    }
  }

  /** Running the builder over plain calls keeps it in step with the outline. */
  lemma {:induction false} RunTracks(s: State, o: seq<Section>, t: seq<Call>)
    requires Tracks(s, o) && Plain(t) && FitsFrom(|s.headers|, t)
    ensures Runs(s, t)
    ensures Tracks(Run(s, t), OutlineFrom(o, t))
    decreases |t|
  {
    if |t| > 0 {
      assert t[0] != Publish;
      StepTracks(s, o, t[0]);
      var s' := Step(s, t[0]);
      assert Plain(t[1..]) by {
        assert forall i :: 0 <= i < |t[1..]| ==> t[1..][i] == t[i + 1];
      }
      RunTracks(s', OutlineStep(o, t[0]), t[1..]);
    }
  }

  /**
    For plain calls followed by `publish`, every key of the document is a
    section title and each array holds as many rows as the last section
    with that title.
   */
  lemma SectionSizes(body: seq<Call>)
    requires Plain(body) && FitsFrom(0, body)
    ensures Runs(Init, body + [Publish])
    ensures Lengths(Render(body + [Publish])) == RowCounts(Outline(body))
  {
    RunTracks(Init, [], body);
    var s := Run(Init, body);
    RunAppend(Init, body, [Publish]);
    assert Runs(s, [Publish]);
    assert Run(s, [Publish]) == Step(s, Publish);
    PublishTracks(s, Outline(body));
  }

  /** `publish` commits the open section, so the lengths become the row counts of all sections. */
  lemma PublishTracks(s: State, o: seq<Section>)
    requires Tracks(s, o)
    ensures Lengths(Step(s, Publish).doc) == RowCounts(o)
  {
    if |o| > 0 {
      assert o == o[..|o| - 1] + [o[|o| - 1]];
      assert Lengths(Step(s, Publish).doc) == Lengths(s.doc)[s.top := |s.data|];
    }
  }

  /** The keys of the row counts are exactly the section titles. */
  lemma {:induction false} RowCountsKeys(o: seq<Section>)
    ensures RowCounts(o).Keys == set i | 0 <= i < |o| :: o[i].title
  {
    if |o| > 0 {
      var p := o[..|o| - 1];
      RowCountsKeys(p);
      assert (set i | 0 <= i < |o| :: o[i].title) == (set i | 0 <= i < |p| :: p[i].title) + {o[|o| - 1].title};
    }
  }

  /** With distinct titles each title keeps the size of its own section. */
  lemma {:induction false} RowCountsDistinct(o: seq<Section>, i: nat)
    requires i < |o|
    requires forall a, b :: 0 <= a < b < |o| ==> o[a].title != o[b].title
    ensures o[i].title in RowCounts(o) && RowCounts(o)[o[i].title] == |o[i].rows|
  {
    RowCountsKeys(o);
    if i < |o| - 1 {
      RowCountsDistinct(o[..|o| - 1], i);
    }
  }

  /**
    For plain calls followed by `publish` the JSON keys are exactly the
    section titles and, when titles are distinct, each array has one object
    per row added after its heading.
   */
  lemma KeysAreTitles(body: seq<Call>)
    requires Plain(body) && FitsFrom(0, body)
    ensures Runs(Init, body + [Publish])
    ensures var o := Outline(body);
      && Render(body + [Publish]).Keys == (set i | 0 <= i < |o| :: o[i].title)
      && ((forall a, b :: 0 <= a < b < |o| ==> o[a].title != o[b].title) ==>
            forall i :: 0 <= i < |o| ==> |Render(body + [Publish])[o[i].title]| == |o[i].rows|)
  {
    SectionSizes(body);
    var o := Outline(body);
    var d := Render(body + [Publish]);
    RowCountsKeys(o);
    if forall a, b :: 0 <= a < b < |o| ==> o[a].title != o[b].title {
      forall i | 0 <= i < |o| ensures |d[o[i].title]| == |o[i].rows| {
        RowCountsDistinct(o, i);
        assert Lengths(d)[o[i].title] == |d[o[i].title]|;
      }
    }
  }

  /** The objects `addrow` builds for a list of rows under one header list. */
  function Objects(headers: seq<string>, rows: seq<seq<Option<string>>>): (r: seq<Row>)
    requires forall i :: 0 <= i < |rows| ==> |rows[i]| <= |headers|
    ensures |r| == |rows|
  {
    seq(|rows|, i requires 0 <= i < |rows| => RowObject(headers, rows[i]))
  }

  /** Rows only append objects; the titles, headers and document stay. */
  lemma {:induction false} RunRows(s: State, rows: seq<seq<Option<string>>>)
    requires forall i :: 0 <= i < |rows| ==> |rows[i]| <= |s.headers|
    ensures Runs(s, Rows(rows))
    ensures Run(s, Rows(rows)) == s.(data := s.data + Objects(s.headers, rows))
    decreases |rows|
  {
    if |rows| > 0 {
      var t := Rows(rows);
      assert t[0] == AddRow(rows[0]);
      assert t[1..] == Rows(rows[1..]);
      var s' := Step(s, t[0]);
      RunRows(s', rows[1..]);
      assert s.data + Objects(s.headers, rows) == s'.data + Objects(s.headers, rows[1..]);
    }
  }

  /**
    `createtable` replaces the header list but keeps the collected rows: two
    tables under one heading land in one array.
   */
  lemma TwoTablesOneSection(title: string, h1: seq<string>, r1: seq<seq<Option<string>>>,
                            h2: seq<string>, r2: seq<seq<Option<string>>>)
    requires title != ""
    requires forall i :: 0 <= i < |r1| ==> |r1[i]| <= |h1|
    requires forall i :: 0 <= i < |r2| ==> |r2[i]| <= |h2|
    ensures var t := [Heading(1, title), CreateTable(h1)] + Rows(r1) + [CreateTable(h2)] + Rows(r2) + [Publish];
      Runs(Init, t) && Render(t) == map[title := Objects(h1, r1) + Objects(h2, r2)]
  {
    var a := [Heading(1, title), CreateTable(h1)];
    var b := [CreateTable(h2)];
    var c := [Publish];
    var s1 := Init.(top := title, headers := h1);
    RunOne(Init, Heading(1, title));
    RunOne(Step(Init, Heading(1, title)), CreateTable(h1));
    assert a == [Heading(1, title)] + [CreateTable(h1)];
    RunAppend(Init, [Heading(1, title)], [CreateTable(h1)]);
    assert Run(Init, a) == s1;
    RunRows(s1, r1);
    var s2 := s1.(data := Objects(h1, r1));
    RunAppend(Init, a, Rows(r1));
    assert Run(Init, a + Rows(r1)) == s2;
    RunOne(s2, CreateTable(h2));
    RunAppend(Init, a + Rows(r1), b);
    var s3 := s2.(headers := h2);
    assert Run(Init, a + Rows(r1) + b) == s3;
    RunRows(s3, r2);
    RunAppend(Init, a + Rows(r1) + b, Rows(r2));
    var s4 := s3.(data := s3.data + Objects(h2, r2));
    assert Run(Init, a + Rows(r1) + b + Rows(r2)) == s4;
    RunOne(s4, Publish);
    RunAppend(Init, a + Rows(r1) + b + Rows(r2), c);
  }

  /** A second section with the same title replaces the first one's array. */
  lemma RepeatedTitleOverwrites(title: string, headers: seq<string>, values: seq<Option<string>>)
    requires title != "" && |values| <= |headers|
    ensures var t := [Heading(1, title), CreateTable(headers), AddRow(values), Heading(1, title), Publish];
      Runs(Init, t) && Render(t) == map[title := []]
  {
    var t := [Heading(1, title), CreateTable(headers), AddRow(values), Heading(1, title), Publish];
    var s0 := Init;
    var s1 := Step(s0, t[0]);
    var s2 := Step(s1, t[1]);
    var s3 := Step(s2, t[2]);
    var s4 := Step(s3, t[3]);
    RunOne(s0, t[0]);
    RunOne(s1, t[1]);
    RunOne(s2, t[2]);
    RunOne(s3, t[3]);
    RunOne(s4, t[4]);
    RunAppend(s0, t[..1], [t[1]]);
    assert t[..2] == t[..1] + [t[1]];
    RunAppend(s0, t[..2], [t[2]]);
    assert t[..3] == t[..2] + [t[2]];
    RunAppend(s0, t[..3], [t[3]]);
    assert t[..4] == t[..3] + [t[3]];
    RunAppend(s0, t[..4], [t[4]]);
    assert t == t[..4] + [t[4]];
    assert t[..1] == [t[0]];
  }

  /** The calls of a table with one row, a level-2 heading and one more row. */
  function SubheadingCalls(title: string, sub: string, headers: seq<string>,
                           v1: seq<Option<string>>, v2: seq<Option<string>>): seq<Call> {
    [Heading(1, title), CreateTable(headers), AddRow(v1), Heading(2, sub), AddRow(v2)]
  }

  /** The builder state after `SubheadingCalls`: the first row is gone. */
  lemma SubheadingState(title: string, sub: string, headers: seq<string>,
                        v1: seq<Option<string>>, v2: seq<Option<string>>)
    requires title != "" && |v1| <= |headers| && |v2| <= |headers|
    ensures var t := SubheadingCalls(title, sub, headers, v1, v2);
      && Runs(Init, t)
      && Run(Init, t) == State(map[], title, sub, [RowObject(headers, v2)], headers)
  {
    var t := SubheadingCalls(title, sub, headers, v1, v2);
    var s1 := Init.(top := title);
    var s2 := s1.(headers := headers);
    var s3 := s2.(data := [RowObject(headers, v1)]);
    var s4 := s3.(sub := sub, data := []);
    var s5 := s4.(data := [RowObject(headers, v2)]);
    assert Step(s4, t[4]) == s5;
    RunOne(s4, t[4]);
    assert Step(s3, t[3]) == s4;
    RunAppend(s3, [t[3]], [t[4]]);
    assert [t[3]] + [t[4]] == t[3..];
    assert Step(s2, t[2]) == s3;
    RunAppend(s2, [t[2]], t[3..]);
    assert [t[2]] + t[3..] == t[2..];
    assert Step(s1, t[1]) == s2;
    RunAppend(s1, [t[1]], t[2..]);
    assert [t[1]] + t[2..] == t[1..];
    assert Step(Init, t[0]) == s1;
    RunAppend(Init, [t[0]], t[1..]);
    assert [t[0]] + t[1..] == t;
  }

  /** A reader of the same calls sees two sections, one per heading. */
  lemma SubheadingOutline(title: string, sub: string, headers: seq<string>,
                          v1: seq<Option<string>>, v2: seq<Option<string>>)
    ensures Outline(SubheadingCalls(title, sub, headers, v1, v2))
         == [Section(title, [v1], []), Section(sub, [v2], [])]
  {
    var t := SubheadingCalls(title, sub, headers, v1, v2);
    var o1 := [Section(title, [], [])];
    var o3 := [Section(title, [v1], [])];
    var o4 := o3 + [Section(sub, [], [])];
    var o5 := [Section(title, [v1], []), Section(sub, [v2], [])];
    assert OutlineStep(o1, t[2]) == o3 by {
      assert o1[..0] == [] && o1[0].rows + [v1] == [v1];
    }
    assert OutlineStep(o4, t[4]) == o5 by {
      assert o4[..1] == o3 && o4[1].rows + [v2] == [v2];
    }
    assert t[4..][1..] == [] && t[3..][1..] == t[4..] && t[2..][1..] == t[3..];
    assert t[1..][1..] == t[2..];
    assert OutlineFrom(o4, t[4..]) == o5;
    assert OutlineFrom(o3, t[3..]) == o5;
    assert OutlineFrom(o1, t[2..]) == o5;
    assert OutlineFrom(o1, t[1..]) == o5;
    assert OutlineStep([], t[0]) == o1 by {
      assert [] + [Section(title, [], [])] == o1;
    }
  }

  /**
    A level-2 heading while only the first slot is titled: the rows collected
    so far are dropped without being committed, and the rows after it are
    committed under the level-1 title. A reader sees two sections, each with
    one row; the document has one key, holding only the second row.
   */
  lemma SubheadingDropsRows(title: string, sub: string, headers: seq<string>,
                            v1: seq<Option<string>>, v2: seq<Option<string>>)
    requires title != "" && |v1| <= |headers| && |v2| <= |headers|
    ensures var t := SubheadingCalls(title, sub, headers, v1, v2);
      && Runs(Init, t + [Publish])
      && Render(t + [Publish]) == map[title := [RowObject(headers, v2)]]
      && Outline(t) == [Section(title, [v1], []), Section(sub, [v2], [])]
  {
    var t := SubheadingCalls(title, sub, headers, v1, v2);
    SubheadingState(title, sub, headers, v1, v2);
    SubheadingOutline(title, sub, headers, v1, v2);
    RunOne(Run(Init, t), Publish);
    RunAppend(Init, t, [Publish]);
  }

  /** Every section title read after `o` is a title in `o` or a heading title in `t`. */
  lemma {:induction false} OutlineTitlesFrom(o: seq<Section>, t: seq<Call>, x: string)
    requires x !in Titles(o)
    requires forall i :: 0 <= i < |t| && t[i].Heading? ==> t[i].title != x
    ensures x !in Titles(OutlineFrom(o, t))
    decreases |t|
  {
    if |t| > 0 {
      var o' := OutlineStep(o, t[0]);
      assert x !in Titles(o') by {
        if t[0].Heading? {
          assert o' == o + [Section(t[0].title, [], [])];
        } else {
          forall i | 0 <= i < |o| ensures o'[i].title == o[i].title {
          }
        }
      }
      forall i | 0 <= i < |t[1..]| && t[1..][i].Heading? ensures t[1..][i].title != x {
        assert t[1..][i] == t[i + 1];
      }
      OutlineTitlesFrom(o', t[1..], x);
    }
  }

  /**
    The title "dummy" that `publish` uses is never a key of the document
    unless some heading of the body uses it.
   */
  lemma DummyIsNotAKey(body: seq<Call>)
    requires Plain(body) && FitsFrom(0, body)
    requires forall i :: 0 <= i < |body| && body[i].Heading? ==> body[i].title != "dummy"
    ensures Runs(Init, body + [Publish])
    ensures "dummy" !in Render(body + [Publish])
  {
    KeysAreTitles(body);
    OutlineTitlesFrom([], body, "dummy");
  }
}
