# airtable-export, modelled in Dafny

`airtable-export` is a command-line tool. It downloads every record of one
or more tables of an Airtable base and writes them as YAML, JSON,
newline-delimited JSON and/or a SQLite database. Optionally it also
downloads the files attached to the records. This project models the core
of its one module, `airtable_export/cli.py`, and proves properties of that
model:

- **Options** (`options.dfy`): picking the output formats (YAML when
  nothing else was asked for), deciding whether the base schema is fetched,
  and working out which tables are exported (the ones named on the command
  line, or every `name` listed in the schema). Also the file names written
  for one table.
- **Pagination** (`pagination.dfy`, with `urls.dfy`): the `all_records`
  loop. The first GET has no query. Each later GET carries the offset the
  previous page returned, and there is a pause between pages. The loop ends
  at the first page without a truthy offset, or at the first failed
  response. The table name is percent-encoded as one path segment and the
  offset as one query value (sections 2.1 and 2.3 of RFC 3986). The server
  is a sequence of responses given as a parameter. The model returns the
  trace of GETs and pauses, the records yielded and the fault, if any.
- **Records** (`records.dfy`, with `values.dfy`): an API record becomes one
  flat dict. Its id goes in first, then its fields, then its creation time.
  The merge is modelled with Python's insertion-ordered dicts.
- **Export** (`export.dfy`): the per-table loop. It appends every flat
  record to the list kept for the file writers and to a database batch.
  The batch is handed to the database each time it reaches 100 records, and
  once more after the loop.
- **Attachments** (`attachments.dfy`): a cell is an attachment cell when it
  is a list whose first element contains `url`. Each element of such a cell
  is fetched and saved under `attachments/<table>/<record id>/<attachment
  id>__<filename>`. The download outcome is a function given as a
  parameter, and the model returns the trace of fetches and saves.
- **YAML style** (`yaml_style.dfy`): `str_representer` asks for literal
  block style for a string holding a newline and leaves every other string
  to the emitter.

`values.dfy` models JSON values, insertion-ordered dicts and the Python
operators the module applies to them: `in`, `[key]` and `str()`. These
operators have the same error behaviour as in Python (TypeError,
KeyError, IndexError), except that str() of a list or dict is not rendered
(see Left out). `wrappers.dfy` holds `Option` and `Result`.

Where the code and the tool's documented intent differ, the model follows
the code:

- After the page loop, the database batch is written even when it is
  empty. The intent is that an empty batch is not sent. With SQLite
  disabled the write is a no-op either way.
- A field named `airtable_id` replaces the record's id, because the fields
  are merged after the id. A field named `airtable_createdTime` is replaced
  by the creation time.
- A cell holding an empty list raises IndexError during attachment
  detection. It is not skipped.
- Attachment detection applies `"url" in` to the first element of any
  list cell, whatever that element is. A list of numbers, booleans or
  nulls raises TypeError. A list whose first element is a string
  containing "url" (such as "curly"), or a list holding "url", is taken
  for an attachment cell and then raises TypeError at `attachment["url"]`.
  The intent is that only a list of dicts with a `url` key counts.
- `list_tables` does not check the response status. An error body
  therefore reaches the table-name comprehension, and a missing `tables`
  key gives KeyError.
- A failed attachment download propagates uncaught. It is not turned into
  a command-line error.

## Model

| member | source | states |
|---|---|---|
| Values.Lookup | airtable_export/cli.py:148 | a key has a value exactly when it is among the dict's keys, and the value returned is the one stored with it |
| Values.Put | airtable_export/cli.py:92-96 | storing a key keeps an existing key in its place, or appends a new one last; the key then maps to the new value, every other key keeps its value, and keys stay distinct |
| Values.UpdateLookup | airtable_export/cli.py:92-96 | after a merge, a key of the right-hand dict has its value from there and every other key keeps the left-hand value |
| Values.UpdateKeys | airtable_export/cli.py:92-96 | the keys of a merge are the left-hand keys in their places, followed by the right-hand keys the left lacked, in their order |
| Values.Update | airtable_export/cli.py:92-96 | `{**d, **e}`: the entries of `e` stored into `d` in order; its values, key order and distinctness are stated by Values.UpdateLookup, Values.UpdateKeys and Values.UpdateDistinct |
| Values.UpdateDistinct | airtable_export/cli.py:92-96 | a merge of two dicts with distinct keys has distinct keys |
| Values.Contains | airtable_export/cli.py:140 | `in` tests the keys of a dict, the elements of a list and the substrings of a string; on null, booleans and numbers it raises TypeError |
| Values.SubstringInside | airtable_export/cli.py:140 | the substring test holds for every string written inside the operand, and never for a needle longer than the operand |
| Values.Subscript | airtable_export/cli.py:142 | `x[key]` succeeds exactly when x is a dict holding the key, and then returns the value stored under it; a dict without the key raises KeyError(key), any other value TypeError |
| Values.Display | airtable_export/cli.py:146-151 | str() leaves a string unchanged, writes an integer in decimal with a leading `-` when negative, booleans as `True`/`False` and null as `None`, and fails exactly on lists and dicts (see Left out) |
| Values.NatToDecimal | airtable_export/cli.py:146-151 | the decimal form of a natural number is made of digits only, has no leading zero (`0` itself is `"0"`), and reads back as the number |
| Records.Flatten | airtable_export/cli.py:92-96 | the merge `{**{"airtable_id": id}, **fields, **{"airtable_createdTime": createdTime}}`; its values are stated by Records.FlattenValues, its keys by Records.FlattenKeys and Records.FlattenHasKey |
| Records.FlattenValues | airtable_export/cli.py:92-96 | the flat record maps `airtable_createdTime` to the creation time, `airtable_id` to a field of that name if there is one and otherwise to the id, and every other field name to its field value |
| Records.FlattenHasKey | airtable_export/cli.py:92-96 | a key is in the flat record exactly when it is `airtable_id`, `airtable_createdTime` or one of the field names |
| Records.FlattenKeys | airtable_export/cli.py:92-96 | the keys of the flat record are distinct: `airtable_id` first, then the other field names in order, then `airtable_createdTime` unless a field already had that name; a key is present exactly when it is one of these |
| Urls.Utf8 | airtable_export/cli.py:187 | a character encodes as 1 to 4 bytes; an ASCII character as its own code, any other character only as bytes of 0x80 and above |
| Urls.DecodeEncodeUtf8 | airtable_export/cli.py:187-189 | UTF-8 decoding inverts the encoding of every string, so the encoder is the UTF-8 of section 3 of RFC 3629 and not merely some 1-to-4-byte code |
| Urls.UnquoteQuote | airtable_export/cli.py:187-189 | percent-decoding what `quote` or `quote_plus` writes for any byte sequence gives back those bytes |
| Urls.Quote | airtable_export/cli.py:187 | `quote(name, safe="")`: the UTF-8 bytes, each unreserved one kept and every other one written `%XX`; its properties are stated by Urls.QuoteRoundTrip, Urls.QuoteIsOneSegment, Urls.QuoteUnreserved and Urls.QuoteAscii |
| Urls.QuotePlus | airtable_export/cli.py:189 | `quote_plus(offset)` as `urlencode` applies it: as `quote`, but a space becomes `+`; its properties are stated by Urls.QuoteRoundTrip and Urls.QuotePlusIsOneValue |
| Urls.QuoteRoundTrip | airtable_export/cli.py:187-189 | the table name and the offset reach the server intact: percent-decoding then UTF-8-decoding what `quote` and `quote_plus` write gives back the original string |
| Urls.QuoteIsOneSegment | airtable_export/cli.py:187 | the encoded table name holds no `/`, `?` or `#`, so it is exactly one path segment |
| Urls.QuotePlusIsOneValue | airtable_export/cli.py:189 | the encoded offset holds no `&`, `=` or `#`, so it is exactly one query value |
| Urls.QuoteUnreserved | airtable_export/cli.py:187 | a name made only of unreserved characters is left unchanged |
| Urls.QuoteAscii | airtable_export/cli.py:187 | every character of an encoded name is ASCII: a non-ASCII character never appears as itself in the URL |
| Urls.QuotedChars | airtable_export/cli.py:187-189 | the encoded text holds only unreserved characters, `%` and, for `quote_plus`, `+` |
| Pagination.TableSegment | airtable_export/cli.py:187 | a string table name is percent-encoded; any other value raises TypeError |
| Pagination.WalkFrom | airtable_export/cli.py:183-196 | the run of the loop from one page on: its GETs, pauses, yielded records and fault are stated by Pagination.WalkRequests, Pagination.WalkSleeps and Pagination.WalkYields, and Pagination.FetchAll is proved equal to it |
| Pagination.AllRecordsSpec | airtable_export/cli.py:183-196 | one whole run of `all_records` for a table; stated by Pagination.AllRecordsRequests and Pagination.AllRecordsOutcome |
| Pagination.FirstStop | airtable_export/cli.py:185 | the loop stops at the first response that fails or has no truthy offset; every page before it returned a truthy offset |
| Pagination.RecordsUrl | airtable_export/cli.py:187-189 | the URL of one request: the API root, the base id and the encoded table, plus `?offset=<encoded offset>` exactly when the offset is truthy; the URLs a run sends are stated by Pagination.AllRecordsRequests and Pagination.FollowUrlQuery |
| Pagination.WalkRequests | airtable_export/cli.py:185-190 | from a given page on, the GETs are the one for that page, then one carrying each next offset, up to and including the stopping page |
| Pagination.Trace | airtable_export/cli.py:183-196 | the events of a run that sends given URLs: a GET for each, with a pause of `sleep` between consecutive GETs when `sleep` is nonzero; its layout is stated by Pagination.TraceSpaced and Pagination.TraceBare |
| Pagination.TraceSpaced | airtable_export/cli.py:195-196 | with a nonzero pause the events alternate GET, pause, ..., GET: the even positions are the GETs of the URLs in order and the odd ones pauses of exactly `sleep` |
| Pagination.TraceBare | airtable_export/cli.py:195-196 | with a zero pause the events are the GETs of the URLs in order and nothing else |
| Pagination.WalkTrace | airtable_export/cli.py:183-196 | the events of the loop from a given page on are exactly the trace of its requests: the first GET, then one GET per next offset up to the stopping page, with the pauses between them |
| Pagination.WalkSleeps | airtable_export/cli.py:195-196 | from a given page on, with `n` the pages that returned an offset: with a nonzero `sleep` the events alternate GET and a pause of exactly `sleep`, `2n + 1` of them, so one pause sits right after each such page; with a zero `sleep` all `n + 1` events are GETs; either way the trace ends with a GET |
| Pagination.WalkYields | airtable_export/cli.py:190-194 | from a given page on, the yielded records are those of the pages up to the stopping page; a fault is reported exactly when the stopping response failed |
| Pagination.AllRecordsRequests | airtable_export/cli.py:183-190 | a run makes one GET more than there are pages with an offset: the first without a query, the k-th with the offset of page k-1 |
| Pagination.AllRecordsOutcome | airtable_export/cli.py:183-196 | a table name that is not a string faults before any request; otherwise the run makes one GET per page up to the stopping page; with a nonzero `sleep` the events alternate GET and a pause of exactly `sleep`, and with a zero `sleep` all are GETs; it ends with a GET, yields every record up to the stopping page, and faults exactly when that response failed |
| Pagination.AllRecords | airtable_export/cli.py:183-187 | one call issues exactly the GETs and pauses, yields exactly the records and raises exactly the fault of the run specified above, including the TypeError of a table name that is not a string |
| Pagination.FetchAll | airtable_export/cli.py:183-196 | the `while first or offset` loop, run for a string table name, issues exactly the GETs and pauses, yields exactly the records and ends with exactly the fault of the specified run |
| Pagination.FollowUrlQuery | airtable_export/cli.py:186-189 | a request that follows a page with a truthy offset carries that offset, `quote_plus`-encoded, as its only query |
| Export.Chunks | airtable_export/cli.py:97-101 | the batches flushed inside the loop; stated by Export.ChunksShape and Export.ChunksSnoc |
| Export.Remainder | airtable_export/cli.py:97-104 | what `db_batch` holds when the loop ends; stated by Export.RemainderSnoc and Export.BatchesShape |
| Export.Batches | airtable_export/cli.py:97-104 | every batch the database receives for a table read completely; stated by Export.BatchesShape |
| Export.ChunksShape | airtable_export/cli.py:97-101 | the batches written inside the loop number `n / 100`, each of exactly 100 records, and together they are the records in order up to the last full batch |
| Export.BatchesShape | airtable_export/cli.py:97-104 | for a table read completely, the database receives `n / 100 + 1` batches: all full but the last, which holds `n % 100` records, and together they are all the records in order |
| Export.RemainderSnoc | airtable_export/cli.py:98-101 | appending a record to a full batch starts a new batch, and otherwise extends the pending one |
| Export.ChunksSnoc | airtable_export/cli.py:98-101 | appending a record adds one full batch exactly when the pending batch reaches 100 |
| Export.CollectStep | airtable_export/cli.py:97-101 | one more flat record flushes the pending batch exactly when that batch reaches 100 records, after which the next batch starts empty; otherwise the record stays pending |
| Export.CollectRecords | airtable_export/cli.py:89-101 | the kept records are the flat records in order; the database receives the full batches as they fill (nothing without SQLite); what is left pending is the last partial batch |
| Export.ExportTable | airtable_export/cli.py:86-104 | a table read completely returns its flat records and writes every batch; a failed request returns the fault after writing only the full batches, never the pending one |
| Export.BatchesOf250 | airtable_export/cli.py:97-104 | 250 records reach the database as three batches, of 100, 100 and 50 records |
| Export.ThreePageScenario | airtable_export/cli.py:183-196 | pages of 100, 100 and 50 records with offsets after the first two give three GETs, two pauses (at the default 0.2 s), all 250 records in page order, no fault, and batches of 100, 100 and 50 |
| Options.ResolveFormats | airtable_export/cli.py:69-70 | the JSON and NDJSON flags are kept; YAML is set exactly when it was asked for or no format and no database was; flags already chosen are unchanged; at least one output is always selected |
| Options.OutputFiles | airtable_export/cli.py:105-120 | one file per selected format, named `<table>.json`, `<table>.ndjson` and `<table>.yml` |
| Options.DefaultIsYaml | airtable_export/cli.py:69-70 | with no flags, the only file written for a table is `<table>.yml` |
| Options.NameList | airtable_export/cli.py:83 | the names come out in order, one per listed table, when every entry has a `name`; otherwise the fault is that of the first entry that lacks one |
| Options.SchemaTableNames | airtable_export/cli.py:83 | a schema without `tables` raises KeyError and a schema that is not a dict raises TypeError |
| Options.SchemaNamesInOrder | airtable_export/cli.py:83 | when every listed table has a `name`, the tables exported are exactly those names, in schema order |
| Options.PlanTables | airtable_export/cli.py:77-83 | the schema is fetched exactly when no table was named or the schema was asked for; named tables are exported as given, otherwise the schema's names are |
| Attachments.IsAttachmentCell | airtable_export/cli.py:140 | a cell that is not a list is not an attachment cell; an empty list raises IndexError; otherwise the answer is Python's `"url" in` applied to the first element, so a dict first element decides by its keys, a string by substring, a list by membership, and a number, boolean or null raises TypeError |
| Attachments.FirstElementNotObject | airtable_export/cli.py:140-142 | a cell whose first element is a string containing "url" or a list holding "url" is taken for attachments and fails with TypeError at `attachment["url"]` before any fetch; any other string or list is skipped; a number, boolean or null raises TypeError in the test itself |
| Attachments.CurlyCell | airtable_export/cli.py:140-142 | the cell `["curly"]` is taken for an attachment cell and faults with TypeError without fetching anything |
| Attachments.NonListCell | airtable_export/cli.py:140 | a cell that is not a list causes no fetch and no save |
| Attachments.EmptyListCell | airtable_export/cli.py:140 | an empty list cell faults with IndexError before anything is fetched |
| Attachments.FirstElementDecides | airtable_export/cli.py:140-141 | a list whose first element is a dict without `url` is skipped entirely, whatever the later elements are |
| Attachments.DestinationOf | airtable_export/cli.py:144-151 | a destination is built only when the record's id and the attachment's `id` and `filename` are present and printable, and is then `attachments/<table>/<id>/<attachment id>__<filename>`; a record without `airtable_id` raises KeyError |
| Attachments.ElementsRunFetchSaves | airtable_export/cli.py:141-154 | when every element is well formed and downloads, the cell fetches and saves each element in turn without a fault |
| Attachments.FetchSavesFetches | airtable_export/cli.py:141-143 | one fetch per element, of that element's URL, in element order |
| Attachments.FetchSavesSaves | airtable_export/cli.py:144-154 | one save per element, at that element's destination, in element order |
| Attachments.AttachmentCellPaths | airtable_export/cli.py:140-154 | an attachment cell whose downloads all succeed causes no fault, one fetch and one save per element, and its i-th save goes to the i-th element's destination |
| Attachments.AttachmentRun | airtable_export/cli.py:141-154 | one attachment: its URL, the GET, the destination and the save; Attachments.DownloadOne is proved equal to it and Attachments.ElementsRunFetchSaves states its effects on well-formed elements |
| Attachments.ElementsRun | airtable_export/cli.py:141-154 | the `for attachment in cell_value` loop: each element in order, stopping at the first fault; Attachments.DownloadElements is proved equal to it, and Attachments.ElementsRunFetchSaves and Attachments.AttachmentCellPaths state its fetches and saves |
| Attachments.CellsRun | airtable_export/cli.py:137-141 | the `for field, cell_value in record.items()` loop: each cell in insertion order, stopping at the first fault; Attachments.DownloadRecord is proved equal to it |
| Attachments.CellRun | airtable_export/cli.py:137-141 | one cell: detection, then its elements; stated by Attachments.NonListCell, Attachments.EmptyListCell, Attachments.FirstElementDecides, Attachments.FirstElementNotObject and Attachments.AttachmentCellPaths |
| Attachments.RecordsRun | airtable_export/cli.py:136-154 | the whole download loop over a table's records; Attachments.DownloadAttachments is proved equal to it and Attachments.RecordsRunConcat states that records are handled one after another |
| Attachments.RecordsRunConcat | airtable_export/cli.py:136-141 | the run over two lists of records is the run over the first followed, unless it raised, by the run over the second |
| Attachments.DownloadOne | airtable_export/cli.py:142-154 | one attachment: fetch, then fault on a failed download, or save at its destination |
| Attachments.DownloadElements | airtable_export/cli.py:141-154 | the elements of a cell are downloaded in order, stopping at the first fault |
| Attachments.DownloadCell | airtable_export/cli.py:137-141 | a cell is downloaded only when it is an attachment cell; the detection fault propagates |
| Attachments.DownloadRecord | airtable_export/cli.py:136-141 | the cells of a record are visited in insertion order, stopping at the first fault |
| Attachments.DownloadAttachments | airtable_export/cli.py:136-154 | the records are visited in order; the fetches, saves and fault are exactly those specified per record |
| Attachments.AndThenAssoc | airtable_export/cli.py:136-141 | running steps one after another is associative, so nested loops compose as one sequence |
| YamlStyle.StrRepresenter | airtable_export/cli.py:199-205 | the node is a string node with the data unchanged, and literal style is requested exactly when the string holds a newline |
| YamlStyle.LiteralForMultiline | airtable_export/cli.py:199-205 | literal style is requested exactly when the string has more than one line, and the lines joined with newlines give the string back |
| YamlStyle.SampleRecordStyles | tests/test_airtable_export.py:21-26 | literal style is requested for the two-line sample address and not for the one-line sample name |

## Left out

- The HTTP layer is not modelled: `httpx`, the `Authorization` and `user-agent` headers, the read timeout, JSON decoding of responses and `list_tables`'s GET. Responses are parameters. A page is either a list of records with an optional offset, or a failure.
- A page whose JSON lacks `records` is not modelled, and neither is a record lacking `id`, `fields` or `createdTime`. Pages are typed.
- The pause is a `Sleep` event in the trace. No time passes.
- Pagination.AllRecords: requires that some response stops the loop. A server that returns an offset forever makes the Python loop run forever, and that is not modelled.
- Export.ExportTable: the traces of GETs and pauses and the batches written are returned separately. How batch writes interleave with later GETs is not captured.
- What the database does with a batch (`insert_all` with primary key `airtable_id`, replace and alter) is not modelled, nor is the file handling of SQLite.
- The YAML emitter is not modelled. It may refuse the literal style that `str_representer` requests and write the string double-quoted instead. PyYAML does this for a string with a non-ASCII character (the dump does not pass `allow_unicode`), a tab, a space before a line break, or a trailing space.
- Serialising the records to JSON, NDJSON or YAML is not modelled. Only the style choice of `str_representer` and the file names are. Neither is writing those files, `_schema.json`, or the attachment bytes; `mkdir` and `pathlib` path normalisation are left out too.
- Turning an HTTP failure into a `click.ClickException` is not modelled. The model returns the fault instead. The same holds for the verbose messages and the command-line parsing by `click`.
- The loop over tables and the order of the stages within one table are not composed into a single operation. Each stage is modelled separately.
- Floating-point field values are not modelled. JSON numbers are integers here.
- Table names and offsets are Dafny strings, which hold only Unicode scalar values. A JSON-decoded table name can hold a lone surrogate, on which Python's `quote` raises UnicodeEncodeError; that case is not modelled.
- Pauses have type `Seconds`, which is never negative. `time.sleep` raises ValueError on a negative length, but the command only ever uses the default of 0.2 seconds.
- Values.Display: `str()` of a list or dict (Python's repr) is not rendered. It yields a `ReprNotModelled` fault, where Python would produce a path containing that repr.
- Attachments.DestinationOf: its contract says what a successful result is, and that a missing `airtable_id` raises KeyError. The fault when the attachment lacks `id` or `filename` is in the body only.
- Options.SchemaTableNames: the happy path is stated by Options.SchemaNamesInOrder rather than in its own contract.
