/**
 * The text `exportToCSV` builds: an unquoted header line, then one line per
 * transaction whose six cells are each wrapped in double quotes, the notes
 * cell with every double quote doubled. A reader for such lines shows that
 * the quoting can be undone.
 */
module Csv {
  import opened Wrappers
  import opened Entities

  const Headers: seq<string> := ["ID", "Datum", "Typ", "Kategorie", "Částka", "Poznámka"]

  /** The label of the `Typ` column. */
  function TypeLabel(kind: string): string {
    if kind == "income" then "Příjem" else "Výdaj"
  }

  /** `.replace(/"/g, '""')`: every double quote doubled. */
  function EscapeQuotes(s: string): (r: string)
    ensures |r| >= |s|
    ensures '"' !in s ==> r == s
    decreases |s|
  {
    if |s| == 0 then ""
    else (if s[0] == '"' then "\"\"" else [s[0]]) + EscapeQuotes(s[1..])
  }

  /** The cells of a transaction's row, before quoting. */
  function Cells(t: Transaction): seq<string> {
    [t.id, t.date, TypeLabel(t.kind), t.category, t.amount.shown, EscapeQuotes(t.notes)]
  }

  /** The values a row stands for: the cells with the notes as stored. */
  function Fields(t: Transaction): seq<string> {
    [t.id, t.date, TypeLabel(t.kind), t.category, t.amount.shown, t.notes]
  }

  function Quote(cell: string): string {
    "\"" + cell + "\""
  }

  /** `cells.join(',')` */
  function Join(cells: seq<string>): string
    decreases |cells|
  {
    if |cells| == 0 then "" else if |cells| == 1 then cells[0] else cells[0] + "," + Join(cells[1..])
  }

  /** `cells.map(cell => `"${cell}"`).join(',')` */
  function QuotedJoin(cells: seq<string>): string
    decreases |cells|
  {
    if |cells| == 0 then "" else if |cells| == 1 then Quote(cells[0]) else Quote(cells[0]) + "," + QuotedJoin(cells[1..])
  }

  function HeaderLine(): string {
    Join(Headers) + "\n"
  }

  function RowLine(t: Transaction): string {
    QuotedJoin(Cells(t)) + "\n"
  }

  /** The CSV text for `ts`, one row line appended per transaction. */
  function CsvText(ts: seq<Transaction>): string
    decreases |ts|
  {
    if |ts| == 0 then HeaderLine() else CsvText(ts[..|ts| - 1]) + RowLine(ts[|ts| - 1])
  }

  /** The row lines alone, first transaction first. */
  function RowsText(ts: seq<Transaction>): string
    decreases |ts|
  {
    if |ts| == 0 then "" else RowLine(ts[0]) + RowsText(ts[1..])
  }

  /** `exportToCSV` without the download: the header line, then `csv +=` one line per row. */
  method ExportToCsv(ts: seq<Transaction>) returns (csv: string)
    ensures csv == CsvText(ts)
  {
    var rows := seq(|ts|, i requires 0 <= i < |ts| => Cells(ts[i]));
    csv := Join(Headers) + "\n";
    for i := 0 to |rows|
      invariant csv == CsvText(ts[..i])
    {
      assert ts[..i + 1][..i] == ts[..i];
      csv := csv + QuotedJoin(rows[i]) + "\n";
    }
    assert ts[..|rows|] == ts;
  }

  /**
   * Reads the rest of a quoted field after its opening quote: a doubled quote
   * stands for one quote, a single quote closes the field.
   */
  function ReadQuoted(s: string): (r: Option<(string, string)>)
    ensures r.Some? ==> |r.value.1| < |s|
    decreases |s|
  {
    if |s| == 0 then None
    else if s[0] == '"' then
      if |s| > 1 && s[1] == '"' then
        match ReadQuoted(s[2..])
        case None => None
        case Some((cell, rest)) => Some(("\"" + cell, rest))
      else Some(("", s[1..]))
    else
      match ReadQuoted(s[1..])
      case None => None
      case Some((cell, rest)) => Some(([s[0]] + cell, rest))
  }

  /** Reads one line of quoted, comma-separated fields ending in a newline. */
  function ReadCells(s: string): (r: Option<(seq<string>, string)>)
    ensures r.Some? ==> |r.value.1| < |s|
    decreases |s|
  {
    if |s| == 0 || s[0] != '"' then None
    else
      match ReadQuoted(s[1..])
      case None => None
      case Some((cell, rest)) =>
        if |rest| > 0 && rest[0] == ',' then
          match ReadCells(rest[1..])
          case None => None
          case Some((more, after)) => Some(([cell] + more, after))
        else if |rest| > 0 && rest[0] == '\n' then Some(([cell], rest[1..]))
        else None
  }

  /** Reads lines of quoted fields up to the end of the text. */
  function ReadRows(s: string): Option<seq<seq<string>>>
    decreases |s|
  {
    if |s| == 0 then Some([])
    else
      match ReadCells(s)
      case None => None
      case Some((cells, rest)) =>
        match ReadRows(rest)
        case None => None
        case Some(rows) => Some([cells] + rows)
  }

  /** A quoted, escaped cell reads back as the original text. */
  lemma {:induction false} ReadQuotedEscaped(c: string, rest: string)
    requires |rest| == 0 || rest[0] != '"'
    ensures ReadQuoted(EscapeQuotes(c) + "\"" + rest) == Some((c, rest))
    decreases |c|
  {
    var s := EscapeQuotes(c) + "\"" + rest;
    if |c| == 0 {
      assert s == "\"" + rest;
      assert s[1..] == rest;
    } else if c[0] == '"' {
      assert s == "\"\"" + (EscapeQuotes(c[1..]) + "\"" + rest);
      ReadQuotedEscaped(c[1..], rest);
      assert c == "\"" + c[1..];
    } else {
      assert s == [c[0]] + (EscapeQuotes(c[1..]) + "\"" + rest);
      ReadQuotedEscaped(c[1..], rest);
      assert c == [c[0]] + c[1..];
    }
  }

  /** A non-empty row of escaped, quoted cells reads back as its cells. */
  lemma {:induction false} ReadCellsEscaped(cells: seq<string>, rest: string)
    requires |cells| > 0
    ensures ReadCells(QuotedJoin(seq(|cells|, i requires 0 <= i < |cells| => EscapeQuotes(cells[i]))) + "\n" + rest)
         == Some((cells, rest))
    decreases |cells|
  {
    var es := seq(|cells|, i requires 0 <= i < |cells| => EscapeQuotes(cells[i]));
    var s := QuotedJoin(es) + "\n" + rest;
    if |cells| == 1 {
      assert s == "\"" + (EscapeQuotes(cells[0]) + "\"" + ("\n" + rest));
      assert s[1..] == EscapeQuotes(cells[0]) + "\"" + ("\n" + rest);
      ReadQuotedEscaped(cells[0], "\n" + rest);
      assert ("\n" + rest)[1..] == rest;
      assert cells == [cells[0]];
    } else {
      var tail := cells[1..];
      var es' := seq(|tail|, i requires 0 <= i < |tail| => EscapeQuotes(tail[i]));
      assert es[1..] == es';
      var more := QuotedJoin(es') + "\n" + rest;
      assert s == "\"" + (EscapeQuotes(cells[0]) + "\"" + ("," + more));
      assert s[1..] == EscapeQuotes(cells[0]) + "\"" + ("," + more);
      ReadQuotedEscaped(cells[0], "," + more);
      assert ("," + more)[1..] == more;
      ReadCellsEscaped(tail, rest);
      assert cells == [cells[0]] + tail;
    }
  }

  /** The cells the source writes without escaping hold no double quote. */
  predicate PlainCells(t: Transaction) {
    '"' !in t.id && '"' !in t.date && '"' !in t.category && '"' !in t.amount.shown
  }

  lemma RowLineEscaped(t: Transaction)
    requires PlainCells(t)
    ensures RowLine(t) == QuotedJoin(seq(6, i requires 0 <= i < 6 => EscapeQuotes(Fields(t)[i]))) + "\n"
  {
    assert '"' !in TypeLabel(t.kind);
    assert seq(6, i requires 0 <= i < 6 => EscapeQuotes(Fields(t)[i])) == Cells(t);
  }

  lemma {:induction false} RowsTextSnoc(ts: seq<Transaction>, t: Transaction)
    ensures RowsText(ts + [t]) == RowsText(ts) + RowLine(t)
    decreases |ts|
  {
    if |ts| == 0 {
      assert [t][1..] == [];
    } else {
      assert (ts + [t])[1..] == ts[1..] + [t];
      RowsTextSnoc(ts[1..], t);
    }
  }

  /** The export is the header line followed by one row line per transaction, in order. */
  lemma {:induction false} CsvTextSplit(ts: seq<Transaction>)
    ensures CsvText(ts) == HeaderLine() + RowsText(ts)
    decreases |ts|
  {
    if |ts| > 0 {
      var init := ts[..|ts| - 1];
      CsvTextSplit(init);
      RowsTextSnoc(init, ts[|ts| - 1]);
      assert init + [ts[|ts| - 1]] == ts;
    }
  }

  /**
   * Reading the row lines back yields, per transaction and in order, its id,
   * date, type label, category, amount and the notes exactly as stored.
   */
  lemma {:induction false} RowsRoundTrip(ts: seq<Transaction>)
    requires forall k :: 0 <= k < |ts| ==> PlainCells(ts[k])
    ensures ReadRows(RowsText(ts)) == Some(seq(|ts|, k requires 0 <= k < |ts| => Fields(ts[k])))
    decreases |ts|
  {
    if |ts| > 0 {
      RowLineEscaped(ts[0]);
      ReadCellsEscaped(Fields(ts[0]), RowsText(ts[1..]));
      RowsRoundTrip(ts[1..]);
      assert RowsText(ts) == RowLine(ts[0]) + RowsText(ts[1..]);
      var all := seq(|ts|, k requires 0 <= k < |ts| => Fields(ts[k]));
      var tail := seq(|ts| - 1, k requires 0 <= k < |ts| - 1 => Fields(ts[1..][k]));
      assert all == [Fields(ts[0])] + tail;
      var s := RowsText(ts);
      assert ReadCells(s) == Some((Fields(ts[0]), RowsText(ts[1..])));
    } else {
      assert seq(|ts|, k requires 0 <= k < |ts| => Fields(ts[k])) == [];
    }
  }

  /** The whole export: header line, then rows that read back as the transactions' fields. */
  lemma ExportRoundTrip(ts: seq<Transaction>)
    requires forall k :: 0 <= k < |ts| ==> PlainCells(ts[k])
    ensures CsvText(ts) == HeaderLine() + RowsText(ts)
    ensures ReadRows(RowsText(ts)) == Some(seq(|ts|, k requires 0 <= k < |ts| => Fields(ts[k])))
  {
    CsvTextSplit(ts);
    RowsRoundTrip(ts);
  }
}
