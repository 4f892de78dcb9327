# Duplicati web server: response writer, log endpoint, tags endpoint

A Dafny model of three parts of the response layer of Duplicati's embedded web server:

- **`BodyWriter`**: the text writer over one HTTP response. It disables caching while the headers are still unsent. It frames a payload as JSON, or as JSONP (`callback(json)`), and sets the content type. Disposing it sets the content length from the buffered body and sends the headers, at most once. `Response` models the server's response object. Its `Send` only marks the headers as sent, and a ghost counter records how many times that happened.
- **`LogData`**: the `log` endpoint.
  - The sub-key `poll`, in any letter case, parses `pagesize`, `id` and `level` with silent fallbacks. It clamps the page size to [1, 500] and asks the live log for the entries after the cursor.
  - Any other sub-key, null included, lists the stored `ErrorLog` table through `DumpTable`, paged by `Timestamp`.
  - `DumpTable` clamps its page size to [10, 500]. It builds the statement `SELECT * FROM "<table>" [WHERE "<field>" < ?] [ORDER BY "<field>" DESC] LIMIT <n>`. It binds the offset only when it filters, and turns the rows it reads into dictionaries keyed by column name.
- **`Tags`**: the `tags` endpoint. It returns the keys of the compression, encryption, backend and generic modules, plus the tags of every stored backup. Everything is lower-cased and united without repetition.

The files:

- `wrappers.dfy`: `Option`.
- `text.dfy`: the .NET string primitives the handlers use:
  - invariant lower-casing and ordinal ignore-case comparison;
  - `IsNullOrEmpty` and `IsNullOrWhiteSpace`;
  - `int`/`long` `TryParse` under `NumberStyles.Integer`;
  - decimal `ToString`.
- `payload.dfy`: what gets serialized. This covers database values, log levels and entries, and the response objects.
- `linq.dfy`: `Select`, `SelectMany` and `Union` as LINQ defines them. `Union` enumerates its first argument, then its second, and yields each element the first time it is met.
- `webserver.dfy`: `Response`, `BodyWriter` and the JSONP framing.
- `logdata.dfy`: the log endpoint, `DumpTable`, and a reader that reads a command back into its table, filter, order and limit.
- `tags.dfy`: the tags endpoint.

External collaborators appear as parameters:

- The JSON serializer is the writer's function `json: Obj -> string`.
- `Enum.TryParse` of the log level is `parseLevel`.
- The log handler's `AfterID` is `afterId`.
- The database is the command's `execute`, which maps a command text and its parameters to the column names and rows it returns. `LogData.Command.ExecuteReader` only hands the command's current text and parameters to it.
- The module registry and the stored backups are sequences passed to `Tags.Get`.

## Model

| member | source | states |
|---|---|---|
| `Text.LowerIdempotent` | Duplicati/Server/WebServer/RESTMethods/Tags.cs:39-42 | lower-casing a lower-cased string changes nothing |
| `Text.EqualsIgnoreCaseLower` | Duplicati/Server/WebServer/RESTMethods/LogData.cs:31 | for a literal made of lower-case ASCII letters, ordinal ignore-case equality with `b` holds iff `b` lower-cased is the literal (both directions) |
| `Text.ParseInteger` | Duplicati/Server/WebServer/RESTMethods/LogData.cs:38 | a successful `TryParse` into a type with range [lo, hi] yields a value inside that range |
| `Text.BlankIsNotANumber` | Duplicati/Server/WebServer/RESTMethods/LogData.cs:77 | a null or blank string never parses as a number |
| `Text.NotANumber` | Duplicati/Server/WebServer/RESTMethods/LogData.cs:38-39 | text that starts with something other than white space, a sign or a digit fails to parse |
| `Text.DecimalValue` | Duplicati/Server/WebServer/RESTMethods/LogData.cs:88 | the digits that `ToString` renders for n have the value n |
| `Text.DecimalRoundTrip` | Duplicati/Server/WebServer/RESTMethods/LogData.cs:88 | rendering a non-negative number that lies within the range and parsing it back gives the same number; negative numbers are not covered |
| `Linq.DistinctFromSpec` | Duplicati/Server/WebServer/RESTMethods/Tags.cs:36-42 | the distinct enumeration has no repeats and holds exactly the elements not already seen |
| `Linq.DistinctFromAppend` | Duplicati/Server/WebServer/RESTMethods/Tags.cs:42 | enumerating a concatenation yields the first part's new elements, then the second part's elements not met in the first |
| `Linq.UnionSpec` | Duplicati/Server/WebServer/RESTMethods/Tags.cs:36-42 | `Union` has no duplicates, contains x iff x is in either argument, and puts the first argument's contribution first |
| `Linq.SelectManySpec` | Duplicati/Server/WebServer/RESTMethods/Tags.cs:42 | an element is in the flattened sequence iff some source element's sub-sequence contains it (both directions) |
| `WebServer.Response.AddHeader` | Duplicati/Server/WebServer/BodyWriter.cs:50 | sets one header and leaves the rest of the response as it was |
| `WebServer.Response.Send` | Duplicati/Server/WebServer/BodyWriter.cs:59 | callable only while the headers are unsent; marks them sent and counts one send; nothing else changes |
| `WebServer.FrameRoundTrip` | Duplicati/Server/WebServer/BodyWriter.cs:83-94 | a client that knows the callback name recovers exactly the JSON text from the framed body |
| `WebServer.FrameShape` | Duplicati/Server/WebServer/BodyWriter.cs:83-94 | with a non-empty callback the body is callback, `(`, the JSON and `)`; with a null or empty one it is the JSON alone |
| `WebServer.BodyWriter.constructor` | Duplicati/Server/WebServer/BodyWriter.cs:44-51 | adds `Cache-Control: no-cache, no-store, must-revalidate, max-age=0` iff the headers are unsent, otherwise leaves the response unchanged |
| `WebServer.BodyWriter.Write` | Duplicati/Server/WebServer/BodyWriter.cs:85-93 | the written text is appended to the writer's buffer; nothing reaches the body yet |
| `WebServer.BodyWriter.Flush` | Duplicati/Server/WebServer/BodyWriter.cs:94 | the buffer is appended to the body stream and emptied; the rest of the response and the send count are unchanged |
| `WebServer.BodyWriter.Dispose` | Duplicati/Server/WebServer/BodyWriter.cs:53-62 | with unsent headers: flushes, sets the content length to the body length and sends once; with sent headers: only flushes, so the length and the send count are unchanged |
| `WebServer.BodyWriter.SetOK` | Duplicati/Server/WebServer/BodyWriter.cs:64-68 | status 200 with reason `OK`, nothing else changed |
| `WebServer.BodyWriter.WriteJsonObject` | Duplicati/Server/WebServer/BodyWriter.cs:76-97 | sets `application/json` only if headers are unsent; the body gains exactly the framed JSON; the response ends up sent; a disposed writer refuses, stays disposed, and leaves the response and its buffer unchanged |
| `WebServer.BodyWriter.OutputOK` | Duplicati/Server/WebServer/BodyWriter.cs:70-74 | status 200 `OK`, then the framed JSON of the result, or of `{ Status = "OK" }` when there is none; the resulting response is `Answered`: with unsent headers, JSON content type, length of the body and one send; header map unchanged |
| `WebServer.OutputAndRelease` | Duplicati/Server/WebServer/BodyWriter.cs:55-81 | writing a result and then disposing again from the outside sends the headers once at most, and only if they were unsent |
| `LogData.IsPollSpec` | Duplicati/Server/WebServer/RESTMethods/LogData.cs:31 | the key selects poll mode iff it is non-null and lower-cases to `poll` |
| `LogData.PollPageSize` | Duplicati/Server/WebServer/RESTMethods/LogData.cs:37-41 | always in [1, 500]; 100 when not an `int`; a parsed value below 1, above 500 or inside the range gives 1, 500 or itself |
| `LogData.PollCursor` | Duplicati/Server/WebServer/RESTMethods/LogData.cs:35-46 | the parsed `long` when `id` parses, 0 otherwise (null included) |
| `LogData.PollLevel` | Duplicati/Server/WebServer/RESTMethods/LogData.cs:34-47 | the parsed level when the null-as-empty `level` parses, `default(LogMessageType)` otherwise |
| `LogData.Route` | Duplicati/Server/WebServer/RESTMethods/LogData.cs:29-61 | poll iff the key is non-null and lower-cases to `poll`; a poll's page size lies in [1, 500], is 100 when `pagesize` does not parse as an `int`, and is the parsed value clamped otherwise; its cursor is the parsed `long` `id`, or 0; its level is the parsed level, or the default; otherwise a dump of `ErrorLog` by `Timestamp` with the raw `offset` and `pagesize` |
| `LogData.PollDefaults` | Duplicati/Server/WebServer/RESTMethods/LogData.cs:37-47 | `poll` with `id=0`, empty level and `pagesize=abc` asks for entries after 0 at the default level, 100 at most |
| `LogData.DumpPageSize` | Duplicati/Server/WebServer/RESTMethods/LogData.cs:69-73 | always in [10, 500]; 100 when not a `long`; a parsed value below 10, above 500 or inside the range gives 10, 500 or itself |
| `LogData.PlanDump` | Duplicati/Server/WebServer/RESTMethods/LogData.cs:69-84 | names the given table and field; the limit lies in [10, 500], is 100 when the page size does not parse as a `long`, and is the parsed value clamped otherwise; there is an offset iff it parses as a `long` and a field is named (the blank test adds nothing), and it then equals the parsed value |
| `LogData.FiltersSpec` | Duplicati/Server/WebServer/RESTMethods/LogData.cs:77 | filtering holds iff the offset parses as a `long` and the field is non-empty; the blank test adds nothing |
| `LogData.CommandTextEnds` | Duplicati/Server/WebServer/RESTMethods/LogData.cs:75-88 | any query's text begins with its select clause and ends with ` LIMIT ` and its limit |
| `LogData.DumpCommandBounds` | Duplicati/Server/WebServer/RESTMethods/LogData.cs:75-88 | the command starts with `SELECT * FROM "<table>"` and ends with ` LIMIT <n>`; n is the clamped page size, in [10, 500], and reads back as itself |
| `LogData.DumpCommandClauses` | Duplicati/Server/WebServer/RESTMethods/LogData.cs:75-88 | the text is select, then WHERE iff the offset parses and the field is named, then ORDER BY DESC iff the field is named, then LIMIT; exactly one parameter, the offset, is bound iff there is a WHERE |
| `LogData.PageSizeAboveCap` | Duplicati/Server/WebServer/RESTMethods/LogData.cs:69-73 | a page size of `1000` becomes 500 |
| `LogData.DumpErrorLogFirstPage` | Duplicati/Server/WebServer/RESTMethods/LogData.cs:69-88 | `ErrorLog` with an empty offset and page size 1000 gives `SELECT * FROM "ErrorLog" ORDER BY "Timestamp" DESC LIMIT 500` and no parameters |
| `LogData.CommandTextReads` | Duplicati/Server/WebServer/RESTMethods/LogData.cs:75-88 | for quote-free names, reading the command back gives its table, filter field (iff an offset is bound), order field (iff a field is named) and limit |
| `LogData.DumpCommandReads` | Duplicati/Server/WebServer/RESTMethods/LogData.cs:75-88 | for quote-free names, the command read back has its filter iff the offset parses and a field is named, its order iff a field is named, and the clamped limit |
| `LogData.RowDictKeys` | Duplicati/Server/WebServer/RESTMethods/LogData.cs:98-100 | the key set of a row's dictionary is exactly the set of column names |
| `LogData.RowDictLast` | Duplicati/Server/WebServer/RESTMethods/LogData.cs:99-100 | a name maps to the value of the last column carrying that name |
| `LogData.RowDictSpec` | Duplicati/Server/WebServer/RESTMethods/LogData.cs:98-100 | keys are the column names, and each name maps to its last column's value |
| `LogData.RowDictDistinct` | Duplicati/Server/WebServer/RESTMethods/LogData.cs:99-100 | with distinct column names, each `names[i]` maps to the row's i-th value |
| `LogData.ReadRows` | Duplicati/Server/WebServer/RESTMethods/LogData.cs:90-104 | one dictionary per reader row, in reader order, each the row's dictionary over the column names |
| `LogData.DumpTable` | Duplicati/Server/WebServer/RESTMethods/LogData.cs:65-107 | the command's text is the planned statement; its parameters gain exactly the planned one; the result is one dictionary per row of the database's answer to that command |
| `LogData.Get` | Duplicati/Server/WebServer/RESTMethods/LogData.cs:29-61 | status 200 and the whole new response state (`Answered`, send count, or unchanged apart from the status when the writer was disposed); poll writes the log handler's entries for the normalised parameters and leaves the command untouched; otherwise the command gets the planned text and parameters and the body holds the table's rows from it |
| `Tags.ModuleTagsSpec` | Duplicati/Server/WebServer/RESTMethods/Tags.cs:33-39 | a string is a module tag iff it is the lower-cased key of some module of the four categories |
| `Tags.BackupTagsSpec` | Duplicati/Server/WebServer/RESTMethods/Tags.cs:42 | a string is a backup tag iff it is the lower-cased form of a tag of some backup |
| `Tags.AllTagsSpec` | Duplicati/Server/WebServer/RESTMethods/Tags.cs:33-42 | the output holds exactly the lower-cased module keys and backup tags, without duplicates |
| `Tags.AllTagsComplete` | Duplicati/Server/WebServer/RESTMethods/Tags.cs:33-42 | every module key of the four categories and every backup tag appears, lower-cased |
| `Tags.AllTagsCaseDistinct` | Duplicati/Server/WebServer/RESTMethods/Tags.cs:39-42 | every output element is a fixed point of lower-casing, and no two elements are equal ignoring case |
| `Tags.AesCollapses` | Duplicati/Server/WebServer/RESTMethods/Tags.cs:33-42 | encryption module `AES` and backup tag `aes` give exactly one entry, `aes` |
| `Tags.Get` | Duplicati/Server/WebServer/RESTMethods/Tags.cs:31-44 | status 200, the whole new response state (`Answered`, send count, or unchanged apart from the status when the writer was disposed) and the framed JSON of the united labels as the body |

## Left out

- JSON serialization (`Serializer.SerializeJson`) and its invariant-culture formatting. The serializer is a total function supplied to the writer, so a serialization failure is not modelled.
- Encoding of the body. The body stream holds characters. `ContentLength` counts characters, not encoded bytes, and a byte-order mark is not modelled.
- The timing of `StreamWriter`'s own buffer flushes. Written text stays in `buffer` until the explicit flush in `WriteJsonObject` or in `Dispose`. Only what reaches the body is stated.
- HTTP transport. `Send` only marks the headers as sent. Writes after the underlying stream is closed are not modelled: the model refuses any write through a disposed writer, as `StreamWriter` does by throwing.
- `Text.ParseInteger`: two details of `NumberStyles.Integer` are not modelled. Culture-specific sign symbols are replaced by `+` and `-`. The trailing NUL characters that newer runtimes accept are rejected.
- `Text.Lower` and `Text.EqualsIgnoreCase`: these map only the ASCII letters; other characters map to themselves. For matching `poll` this is exact. For tags with non-ASCII letters the model keeps those letters unchanged.
- `LogData.PollLevel`: the grammar of `Enum.TryParse` and the member names of `LogMessageType` are not modelled. The parse is the parameter `parseLevel`, and `default(LogMessageType)` is the level numbered 0.
- Query-string lookup is a plain map. How the server normalises parameter names, and how it handles repeated parameters, are not modelled.
- `Program.LogHandler.AfterID`, `Program.DataConnection.ExecuteWithCommand`/`Backups` and the module registry are external. They appear as parameters. No SQL semantics is modelled: the rows are whatever the database returns for the command.
- Column order within a row is not modelled. In the source, each row is a `Dictionary<string, object>` filled in column order, and its enumeration order, which follows the first occurrence of each column name, becomes the key order of the serialized JSON object. In the model a row is an unordered `map`, so two rows with the same names and values in different column order are equal and serialize alike.
- Database failures are not modelled. In the source, `ExecuteWithCommand` and `ExecuteReader` throw on an unknown table or column or a lost connection, which aborts `GET` before `OutputOK` and writes nothing. In the model `execute` is total, so `LogData.Get` always answers with rows.
- Identifier escaping is absent, because the source concatenates names verbatim. `LogData.CommandTextReads` therefore assumes quote-free names.
- `Tags.ModuleEntry` compares registered modules by value. The source unites them by object identity. Only their lower-cased keys reach the output, and the final `Union` removes any repeats, so the set of labels is the same either way.
- The `Description` and `Types` properties of both endpoints are documentation constants. The request-based `BodyWriter` constructor overload is not modelled separately: it only reads the `jsonp` query parameter and passes it to the modelled constructor.
