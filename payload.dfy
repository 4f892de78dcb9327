/**
 * The values the handlers hand to the JSON serializer. The serializer itself
 * is not modelled: a response writer is given it as a function from these
 * values to text.
 */
module Payload {

  /** A value read from the database: one of SQLite's storage classes. */
  datatype Value = Null | Integer(i: int) | Real(r: real) | Text(s: string) | Blob(bytes: seq<bv8>)

  /** A `LogMessageType` by its underlying number; `default(LogMessageType)` is the one numbered 0. */
  datatype LogLevel = LogLevel(ordinal: int)

  const DefaultLevel: LogLevel := LogLevel(0)

  /** An entry of the in-memory log, as the log handler returns it. */
  datatype LogEntry = LogEntry(id: int, level: LogLevel, message: string)

  /** The objects the handlers serialize. */
  datatype Obj =
    | StatusObject(status: string)                  // an anonymous `new { Status = ... }`
    | Rows(rows: seq<map<string, Value>>)           // a `List<Dictionary<string, object>>`
    | Entries(entries: seq<LogEntry>)               // the log handler's answer to a poll
    | Strings(items: seq<string>)                   // an `IEnumerable<string>`

  /** The object `OutputOK` writes when it is given none: `{ Status = "OK" }`. */
  const SuccessResponse: Obj := StatusObject("OK")
}
