/** The value records the tailer hands to the GUI: one keyword's hit count,
    the snapshot of one poll, and the generic envelope every collector
    returns. */
module LogModels {

  /** A keyword and how many times it was counted in one poll. */
  datatype LogKeywordHit = LogKeywordHit(keyword: string, count: int)

  /** One poll of one log file: the cursor after the poll, the lines read,
      the keyword hits, and notes about what happened on the way. */
  datatype LogData = LogData(
    path: string,
    lastReadPos: int,
    newLines: seq<string>,
    keywordHits: seq<LogKeywordHit>,
    notes: seq<string>)

  /** `CollectorResult[T]`: when the sample was taken (a clock reading), an
      "OK"/"WARN" status, the warnings and their number, and the payload. */
  datatype CollectorResult<T> = CollectorResult(
    ts: int,
    status: string,
    warningCount: int,
    data: T,
    warnings: seq<string>)
}
