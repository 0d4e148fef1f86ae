/** The spreadsheet rules of `utils/onedrive.py`: reading the tracker
workbook, appending one row through a workbook session, and overwriting the
whole file. The table is a sequence of rows of cell texts; pandas' Excel
reading and writing is the abstract `parsed` input.
 */
module Workbook {
  import opened Wrappers
  import Drive

  type Row = seq<string>

  /** The column the tracker page shows and writes the folder flag under. */
  const FolderColumn := "Created Application folder"

  /** The keys the appended row is read from, in table column order, as
  written: the folder flag is looked up as "Folder Created", a key no
  caller writes. */
  const RowKeysAsWritten: seq<string> := ["ID", "Job Type", "Date", "Company Name", "Url", "Folder Created", "Status"]

  /** The corrected keys: the folder flag is read from the column the
  tracker writes it under. */
  const RowKeys: seq<string> := ["ID", "Job Type", "Date", "Company Name", "Url", FolderColumn, "Status"]

  /** `new_row.get(key, "")`. */
  function Lookup(row: map<string, string>, key: string): string
  {
    if key in row then row[key] else ""
  }

  /** The values list of the append request: exactly seven cells, one per
  key in column order, "" for a missing key. */
  function FormatRow(row: map<string, string>): (values: Row)
    ensures |values| == |RowKeys| == 7
    ensures forall i :: 0 <= i < 7 ==> (RowKeys[i] in row ==> values[i] == row[RowKeys[i]])
    ensures forall i :: 0 <= i < 7 ==> (RowKeys[i] !in row ==> values[i] == "")
  {
    seq(7, i requires 0 <= i < 7 => Lookup(row, RowKeys[i]))
  }

  /** The values list as written, reading the folder flag under
  "Folder Created". */
  function FormatRowAsWritten(row: map<string, string>): (values: Row)
    ensures |values| == |RowKeysAsWritten| == 7
    ensures forall i :: 0 <= i < 7 ==> (RowKeysAsWritten[i] in row ==> values[i] == row[RowKeysAsWritten[i]])
    ensures forall i :: 0 <= i < 7 ==> (RowKeysAsWritten[i] !in row ==> values[i] == "")
  {
    seq(7, i requires 0 <= i < 7 => Lookup(row, RowKeysAsWritten[i]))
  }

  /** Keys outside the seven columns are ignored: two rows that agree on
  the seven keys give the same values. */
  lemma FormatRowIgnoresOtherKeys(a: map<string, string>, b: map<string, string>)
    requires forall i :: 0 <= i < 7 ==> Lookup(a, RowKeys[i]) == Lookup(b, RowKeys[i])
    ensures FormatRow(a) == FormatRow(b)
  {
  }

  datatype WorkbookCall = CreateSession | AddRow(values: Row) | CloseSession

  datatype AppendFailure =
    | SessionNetworkError
    | SessionRefused(status: int)
    | AppendNetworkError
    | AppendRefused(status: int)

  /** `append_row_to_excel_table` against a remote table: open a session
  (201 only), add the row (200 or 201), then close the session. The reply
  to the close request is never looked at, so it is not a parameter. The
  result is the remote table afterwards. */
  function AppendRow(table: seq<Row>, row: map<string, string>, session: Drive.Reply, append: Drive.Reply)
    : (r: (Result<seq<Row>, AppendFailure>, seq<WorkbookCall>))
    ensures r.0.Ok? <==> Drive.Is(session, 201) && Drive.OkOrCreated(append)
    ensures !Drive.Is(session, 201) ==> r.1 == [CreateSession]
    ensures Drive.Is(session, 201) && !Drive.OkOrCreated(append) ==> r.1 == [CreateSession, AddRow(FormatRow(row))]
    ensures r.0.Ok? ==> r.1 == [CreateSession, AddRow(FormatRow(row)), CloseSession]
    ensures r.0.Ok? ==> |r.0.value| == |table| + 1 && r.0.value[..|table|] == table
    ensures r.0.Ok? ==> r.0.value[|table|] == FormatRow(row)
  {
    var values := FormatRow(row);
    match session
    case NetworkError => (Err(SessionNetworkError), [CreateSession])
    case Code(s) =>
      if s != 201 then (Err(SessionRefused(s)), [CreateSession])
      else
        match append
        case NetworkError => (Err(AppendNetworkError), [CreateSession, AddRow(values)])
        case Code(a) =>
          if a != 200 && a != 201 then (Err(AppendRefused(a)), [CreateSession, AddRow(values)])
          else (Ok(table + [values]), [CreateSession, AddRow(values), CloseSession])
  }

  datatype ReadFailure = ReadNetworkError | Unparsable

  /** `read_excel_from_onedrive`: a transport failure or an unparsable 200
  body raises; any other status falls off the end and returns `None`. */
  function ReadExcel<T>(reply: Drive.Reply, parsed: Option<T>): (r: Result<Option<T>, ReadFailure>)
    ensures r.Err? <==> reply.NetworkError? || (Drive.Is(reply, 200) && parsed.None?)
    ensures r == Ok(None) <==> reply.Code? && reply.status != 200
    ensures Drive.Is(reply, 200) && parsed.Some? ==> r == Ok(parsed)
  {
    match reply
    case NetworkError => Err(ReadNetworkError)
    case Code(s) =>
      if s != 200 then Ok(None)
      else if parsed.None? then Err(Unparsable)
      else Ok(parsed)
  }

  /** `overwrite_excel_file`: the upload must answer 200 or 201. */
  function Overwrite<T>(table: T, reply: Drive.Reply): (r: Result<T, Drive.Reply>)
    ensures r.Ok? <==> Drive.OkOrCreated(reply)
    ensures r.Ok? ==> r.value == table
  {
    if Drive.OkOrCreated(reply) then Ok(table) else Err(reply)
  }

  /** Writing a table and reading it back: after an accepted upload, a
  successful read that parses the file returns the table written. */
  lemma OverwriteThenRead<T>(table: T, upload: Drive.Reply)
    requires Drive.OkOrCreated(upload)
    ensures ReadExcel(Drive.Code(200), Some(Overwrite(table, upload).value)) == Ok(Some(table))
  {
  }
}
