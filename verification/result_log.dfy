/** The result sink: out.csv as a sequence of rows, or absent. */
module ResultLog {
  import opened Wrappers

  type Row = seq<string>

  /** The header row init_csv writes. */
  const Header: Row := ["country", "zip", "seller_url", "product_url", "title", "price"]

  /** out.csv: None while the file does not exist, otherwise its rows in
      file order. */
  type Log = Option<seq<Row>>

  function RowsOf(log: Log): seq<Row> {
    match log
    case None => []
    case Some(rows) => rows
  }

  /** init_csv: creates the file holding the header row only when no file
      exists; an existing file, header or not, is left untouched. */
  function InitCsv(log: Log): (log': Log)
    ensures log'.Some?
    ensures log.Some? ==> log' == log
    ensures log.None? ==> RowsOf(log') == [Header]
  {
    if log.None? then Some([Header]) else log
  }

  /** save_row: opens the file in append mode (creating it, without a
      header, if absent) and adds the row after every existing row. */
  function SaveRow(log: Log, row: Row): (log': Log)
    ensures log'.Some?
    ensures |RowsOf(log')| == |RowsOf(log)| + 1
    ensures RowsOf(log')[..|RowsOf(log)|] == RowsOf(log)
    ensures RowsOf(log')[|RowsOf(log)|] == row
  {
    Some(RowsOf(log) + [row])
  }

  /** Initialising twice is initialising once: the header is never doubled. */
  lemma InitCsvIdempotent(log: Log)
    ensures InitCsv(InitCsv(log)) == InitCsv(log)
  {
  }
}
