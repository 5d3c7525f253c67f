/** The row every engine streams, reduced to the columns the engines read. */
module Rows {

  datatype Option<+T> = None | Some(value: T) {
    function GetOr(default: T): T { if Some? then value else default }
  }

  datatype LogRow = LogRow(
    recordId: string,
    datasetId: string,
    sourceId: string,
    resourceId: string,
    eventTime: Option<int>,
    recordNumber: Option<int>,
    message: string,
    attributes: map<string, string>
  )

  /** What `stream_query` hands to its callback when the callback never stops it. */
  function Streamed(rows: seq<LogRow>, maxRows: nat): (r: seq<LogRow>)
    ensures |r| == (if |rows| <= maxRows then |rows| else maxRows) && r <= rows
  {
    if |rows| <= maxRows then rows else rows[..maxRows]
  }
}
