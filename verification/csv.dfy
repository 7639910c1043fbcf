/** The CSV text `handleExportToExcel` in `src/app/App.tsx` builds from the
    filtered entries: an unquoted header line of nine labels, then one line
    per entry with each of its nine values wrapped in double quotes. Quotes,
    commas and line breaks inside a value are not escaped. */
module CsvExport {
  import opened Text
  import opened Logbook

  /** A text with neither a comma nor a line feed: the naive reader
      cannot tell it apart from its neighbours otherwise. */
  predicate PlainText(s: string) {
    ',' !in s && '\n' !in s
  }

  /** The column label at position `k`. */
  function Label(k: nat): (l: string)
    requires k < 9
    ensures l != [] && PlainText(l)
  {
    match k
    case 0 => "No"
    case 1 => "Tanggal"
    case 2 => "Modul/Fitur"
    case 3 => "Aktivitas"
    case 4 => "Detail Teknis"
    case 5 => "Kendala"
    case 6 => "Solusi"
    case 7 => "Status"
    case _ => "PIC"
  }

  /** The nine labels of the header line, in column order. */
  function Headers(): (h: seq<string>)
    ensures |h| == 9
    ensures forall k :: 0 <= k < 9 ==> h[k] == Label(k)
  {
    seq(9, k requires 0 <= k < 9 => Label(k))
  }

  /** A header the reader can recover: at least one label, and no label
      holding a comma or a line feed. */
  predicate PlainLabels(hs: seq<string>) {
    |hs| > 0 && forall k :: 0 <= k < |hs| ==> PlainText(hs[k])
  }

  /** A header whose last label is non-empty and holds no line feed. */
  predicate EndsPlain(hs: seq<string>) {
    |hs| > 0 && hs[|hs| - 1] != [] && '\n' !in hs[|hs| - 1]
  }

  /** The nine labels are such a header. */
  lemma HeadersArePlain()
    ensures PlainLabels(Headers())
  {
  }

  /** The last of the nine labels is non-empty and holds no line feed. */
  lemma HeadersEndPlain()
    ensures EndsPlain(Headers())
  {
    var hs := Headers();
    assert hs[8] == Label(8);
  }

  /** The eight text values of an entry, in column order after `No`. */
  function TextCells(e: Entry): seq<string> {
    [e.tanggal, e.modulFitur, e.aktivitas, e.detailTeknis, e.kendala, e.solusi, e.status, e.pic]
  }

  /** The nine values of a row, in header order, as template-literal text. */
  function Cells(e: Entry): (cs: seq<string>)
    ensures |cs| == |Headers()|
  {
    [IntToString(e.no)] + TextCells(e)
  }

  /** `csvRows`: the values of each entry, in list order. */
  function CellRows(entries: seq<Entry>): (t: seq<seq<string>>)
    ensures |t| == |entries|
    ensures forall i :: 0 <= i < |entries| ==> t[i] == Cells(entries[i])
  {
    seq(|entries|, i requires 0 <= i < |entries| => Cells(entries[i]))
  }

  /** `"${c}"`. */
  function Quote(c: string): string {
    "\"" + c + "\""
  }

  /** Strips one pair of surrounding double quotes, if there is one. */
  function Unquote(c: string): string {
    if |c| >= 2 && c[0] == '"' && c[|c| - 1] == '"' then c[1..|c| - 1] else c
  }

  function QuoteAll(cs: seq<string>): (qs: seq<string>)
    ensures |qs| == |cs|
    ensures forall k :: 0 <= k < |cs| ==> qs[k] == Quote(cs[k])
  {
    seq(|cs|, k requires 0 <= k < |cs| => Quote(cs[k]))
  }

  function UnquoteAll(qs: seq<string>): (cs: seq<string>)
    ensures |cs| == |qs|
  {
    seq(|qs|, k requires 0 <= k < |qs| => Unquote(qs[k]))
  }

  function HeaderLine(): string {
    Join(Headers(), ',')
  }

  function RowLine(e: Entry): string {
    Join(QuoteAll(Cells(e)), ',')
  }

  /** The lines of the CSV text under the header `hs`: the header line, then
      one row line per entry, in order. */
  function Lines(hs: seq<string>, entries: seq<Entry>): (ls: seq<string>)
    ensures |ls| == |entries| + 1
    ensures ls[0] == Join(hs, ',')
  {
    [Join(hs, ',')] + seq(|entries|, i requires 0 <= i < |entries| => RowLine(entries[i]))
  }

  /** The CSV text of `entries` under the header `hs`; it starts with the
      header line. */
  function Csv(hs: seq<string>, entries: seq<Entry>): (csv: string)
    ensures Join(hs, ',') <= csv
  {
    var ls := Lines(hs, entries);
    JoinStartsWithFirst(ls, '\n');
    Join(ls, '\n')
  }

  /** `csvContent`: the header line and one line per entry, in order, joined
      by line feeds. It starts with the header line and does not end with a
      line feed. */
  function ExportCsv(entries: seq<Entry>): (csv: string)
    ensures HeaderLine() <= csv
    ensures |csv| > 0 && csv[|csv| - 1] != '\n'
  {
    var hs := Headers();
    HeadersEndPlain();
    LastLineEnding(hs, entries);
    var csv := Csv(hs, entries);
    assert HeaderLine() <= csv;
    csv
  }

  /** The CSV text under a header whose last label is non-empty and free of
      line feeds does not end with a line feed: its last line ends with that
      label or, when there is a row, with a quote. */
  lemma LastLineEnding(hs: seq<string>, entries: seq<Entry>)
    requires EndsPlain(hs)
    ensures var csv := Csv(hs, entries);
      |csv| > 0 && csv[|csv| - 1] != '\n'
  {
    var ls := Lines(hs, entries);
    var last := ls[|ls| - 1];
    if |entries| == 0 {
      var l := hs[|hs| - 1];
      assert last == Join(hs, ',');
      JoinEndsWithLast(hs, ',');
      assert l[|l| - 1] in l;
    } else {
      assert last == RowLine(entries[|entries| - 1]);
      RowLineEnding(entries[|entries| - 1]);
    }
    JoinEndsWithLast(ls, '\n');
  }

  lemma RowLineEnding(e: Entry)
    ensures RowLine(e) != [] && RowLine(e)[|RowLine(e)| - 1] == '"'
  {
    var qs := QuoteAll(Cells(e));
    assert qs[|qs| - 1] == Quote(Cells(e)[|qs| - 1]);
    JoinEndsWithLast(qs, ',');
  }

  /** A parsed CSV text: the header cells and the cells of each later line. */
  datatype Table = Table(header: seq<string>, rows: seq<seq<string>>)

  /** A naive reader: split into lines at line feeds, split each line at
      commas, and strip the surrounding quotes of every cell after the header. */
  function ParseCsv(csv: string): Table {
    var ls := Split(csv, '\n');
    Table(Split(ls[0], ','),
          seq(|ls| - 1, i requires 0 <= i < |ls| - 1 => UnquoteAll(Split(ls[i + 1], ','))))
  }

  /** No text value of the entry holds a comma or a line feed. */
  predicate Plain(e: Entry) {
    && PlainText(e.tanggal) && PlainText(e.modulFitur) && PlainText(e.aktivitas)
    && PlainText(e.detailTeknis) && PlainText(e.kendala) && PlainText(e.solusi)
    && PlainText(e.status) && PlainText(e.pic)
  }

  lemma HeaderLineIsPlain(hs: seq<string>)
    requires PlainLabels(hs)
    ensures '\n' !in Join(hs, ',')
    ensures Split(Join(hs, ','), ',') == hs
  {
    JoinAvoids(hs, ',', '\n');
    SplitJoin(hs, ',');
  }

  /** The quoted cells of a plain entry hold neither a comma nor a line feed. */
  lemma QuotedCellsArePlain(e: Entry)
    requires Plain(e)
    ensures forall k :: 0 <= k < |Cells(e)| ==> PlainText(QuoteAll(Cells(e))[k])
  {
    var cs := Cells(e);
    var qs := QuoteAll(cs);
    forall k | 0 <= k < |cs|
      ensures PlainText(qs[k])
    {
      if k == 0 {
        assert forall i :: 0 <= i < |cs[0]| ==> IsDigit(cs[0][i]) || cs[0][i] == '-';
      } else {
        assert cs[k] == TextCells(e)[k - 1];
      }
      assert qs[k] == "\"" + cs[k] + "\"";
    }
  }

  /** A row of a plain entry is a single line. */
  lemma RowLineIsOneLine(e: Entry)
    requires Plain(e)
    ensures '\n' !in RowLine(e)
  {
    QuotedCellsArePlain(e);
    JoinAvoids(QuoteAll(Cells(e)), ',', '\n');
  }

  /** The cells of a row of a plain entry read back exactly. */
  lemma RowLineRoundTrip(e: Entry)
    requires Plain(e)
    ensures UnquoteAll(Split(RowLine(e), ',')) == Cells(e)
  {
    var cs := Cells(e);
    var qs := QuoteAll(cs);
    QuotedCellsArePlain(e);
    SplitJoin(qs, ',');
    forall k | 0 <= k < |qs|
      ensures Unquote(qs[k]) == cs[k]
    {
      var q := qs[k];
      assert q == "\"" + cs[k] + "\"";
      assert q[1..|q| - 1] == cs[k];
    }
  }

  /** No line of the CSV of plain entries under a plain header holds a line feed. */
  lemma LinesArePlain(hs: seq<string>, entries: seq<Entry>)
    requires PlainLabels(hs)
    requires forall i :: 0 <= i < |entries| ==> Plain(entries[i])
    ensures forall k :: 0 <= k < |Lines(hs, entries)| ==> '\n' !in Lines(hs, entries)[k]
  {
    forall k | 0 <= k < |Lines(hs, entries)|
      ensures '\n' !in Lines(hs, entries)[k]
    {
      LineIsPlain(hs, entries, k);
    }
  }

  lemma LineIsPlain(hs: seq<string>, entries: seq<Entry>, k: int)
    requires PlainLabels(hs)
    requires forall i :: 0 <= i < |entries| ==> Plain(entries[i])
    requires 0 <= k <= |entries|
    ensures '\n' !in Lines(hs, entries)[k]
  {
    var ls := Lines(hs, entries);
    if k == 0 {
      HeaderLineIsPlain(hs);
    } else {
      assert ls[k] == RowLine(entries[k - 1]);
      RowLineIsOneLine(entries[k - 1]);
    }
  }

  /** Such a CSV splits back into its lines. */
  lemma CsvLines(hs: seq<string>, entries: seq<Entry>)
    requires PlainLabels(hs)
    requires forall i :: 0 <= i < |entries| ==> Plain(entries[i])
    ensures Split(Csv(hs, entries), '\n') == Lines(hs, entries)
  {
    LinesArePlain(hs, entries);
    SplitJoin(Lines(hs, entries), '\n');
  }

  /** Line `i + 1` of such a CSV reads back as the values of entry `i`. */
  lemma CsvRow(hs: seq<string>, entries: seq<Entry>, i: int)
    requires PlainLabels(hs)
    requires forall i :: 0 <= i < |entries| ==> Plain(entries[i])
    requires 0 <= i < |entries|
    ensures |ParseCsv(Csv(hs, entries)).rows| == |entries|
    ensures ParseCsv(Csv(hs, entries)).rows[i] == Cells(entries[i])
  {
    var ls := Lines(hs, entries);
    CsvLines(hs, entries);
    var t := ParseCsv(Csv(hs, entries));
    assert t.rows[i] == UnquoteAll(Split(ls[i + 1], ','));
    assert ls[i + 1] == RowLine(entries[i]);
    RowLineRoundTrip(entries[i]);
  }

  /** The first line of such a CSV reads back as the header labels. */
  lemma CsvHeader(hs: seq<string>, entries: seq<Entry>)
    requires PlainLabels(hs)
    requires forall i :: 0 <= i < |entries| ==> Plain(entries[i])
    ensures ParseCsv(Csv(hs, entries)).header == hs
  {
    CsvLines(hs, entries);
    HeaderLineIsPlain(hs);
  }

  /** The later lines of such a CSV read back as the entries, in order. */
  lemma CsvRows(hs: seq<string>, entries: seq<Entry>)
    requires PlainLabels(hs)
    requires forall i :: 0 <= i < |entries| ==> Plain(entries[i])
    ensures ParseCsv(Csv(hs, entries)).rows
         == CellRows(entries)
  {
    var t := ParseCsv(Csv(hs, entries));
    forall i | 0 <= i < |entries|
      ensures |t.rows| == |entries| && t.rows[i] == Cells(entries[i])
    {
      CsvRow(hs, entries, i);
    }
    assert |t.rows| == |entries| by {
      CsvLines(hs, entries);
    }
  }

  /** For entries whose values hold no comma and no line feed, reading the
      export back yields the nine labels and, line by line in entry order,
      the nine values of each entry. */
  lemma ExportRoundTrip(entries: seq<Entry>)
    requires forall i :: 0 <= i < |entries| ==> Plain(entries[i])
    ensures ParseCsv(ExportCsv(entries))
         == Table(Headers(), CellRows(entries))
  {
    HeadersArePlain();
    CsvHeader(Headers(), entries);
    CsvRows(Headers(), entries);
  }
}
