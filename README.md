# kcsv record layer in Dafny

A model of the record layer of kcsv, a small Kotlin reader for `;`-separated
text. It covers how lines become records and how records are read. It also
covers the fluent builder that picks the pipeline.

- `csv_files.dfy`, module `CsvFiles` (File.kt). A line is split on `;` with
  no quoting. `CsvLine` is the record: its fields plus the header names
  attached to it. `get(i)` and `get(name)` are modelled as `Get` and
  `GetByName`. The two stream shapes are `CsvFile` (no headers) and
  `CsvFileWithHeaders` (the first record's fields become the headers). The
  class `CsvIterator` is a cursor with a one-line lookahead over the lines of
  an opened source.
- `readers.dfy`, module `Readers` (Reader.kt). The immutable builder
  `CsvReader`: `from(path)`, `from(url)`, `withHeaders()`, `zipped()` and
  `read()`. Its source union `File` is a regular file, a remote URL, or a
  zip layer around another source.
- `file_readers.dfy`, module `FileReaders` (CsvReader.kt). This is the earlier
  version of the same reader: the builder `CsvFileReader`, its own `File`
  union (regular file or zip layer, both known by a path) and its own cursor
  behind `Lines`. Its `CsvLine` and `CsvFileWithHeaders` (CsvReader.kt:49-61)
  are textually the same as File.kt's. Its `CsvFile` (CsvReader.kt:44-47)
  yields the same records in a single pass. The two `CsvFile`s differ only
  in laziness and re-iteration, which the model leaves out (see below). So
  all three share the `CsvFiles` definitions. The cursor stays a separate
  class, `LineCursor`, because CsvReader.kt declares its own iterator.

Opening a source and decoding it into lines is I/O. The model takes it as a
parameter: a function `fetch` from a source to the lines that source
delivers. A stream is read by `Open(csv, fetch)`. It gives the stream's
`headers` and `content`, or `Err(NoSuchElement)` where Kotlin throws.

Points where the code's behaviour is easy to misread:
- `get(i)` with a negative `i` throws, because `content[i]` is Kotlin list
  indexing (File.kt:39). So `Get` takes a `nat`.
- Header mode over a source with no lines throws, because `first()` on an
  empty sequence throws (File.kt:18). The model gives `Err(NoSuchElement)`.
- Header mode opens the source twice, because the plain stream's `content`
  getter runs at File.kt:18 and again at File.kt:19. Both evaluations are
  taken over the same line sequence `fetch(source)`.

## Model

| member | source | states |
|---|---|---|
| `CsvFiles.Split` | src/main/kotlin/me/rubendm/kcsv/File.kt:29 | `split(";")` always yields at least one field |
| `CsvFiles.SplitEmptyLine` | src/main/kotlin/me/rubendm/kcsv/File.kt:29 | an empty line gives one empty field |
| `CsvFiles.SplitFieldCount` | src/main/kotlin/me/rubendm/kcsv/File.kt:29 | a line with n `;` gives n + 1 fields, so empty and trailing fields are kept |
| `CsvFiles.SplitFieldsHaveNoDelimiter` | src/main/kotlin/me/rubendm/kcsv/File.kt:29 | no field contains `;` (there is no quoting) |
| `CsvFiles.JoinSplit` | src/main/kotlin/me/rubendm/kcsv/File.kt:29 | joining the fields with `;` gives back the original line |
| `CsvFiles.SplitJoin` | src/main/kotlin/me/rubendm/kcsv/File.kt:29 | splitting `;`-joined delimiter-free fields gives back exactly those fields |
| `CsvFiles.IndexOf` | src/main/kotlin/me/rubendm/kcsv/File.kt:40 | `headers.indexOf(name)` is the first position holding `name` |
| `CsvFiles.CsvLine.ToList` | src/main/kotlin/me/rubendm/kcsv/File.kt:38 | `toList()` gives the fields in order, field k being what `get(k)` finds |
| `CsvFiles.CsvLine.Get` | src/main/kotlin/me/rubendm/kcsv/File.kt:39 | absent exactly when the index is at or past the field count, otherwise the field at that index |
| `CsvFiles.CsvLine.GetByName` | src/main/kotlin/me/rubendm/kcsv/File.kt:40 | absent when no header is `name`; otherwise the field at the first matching header, which is still absent if the row is shorter |
| `CsvFiles.NoHeadersNoName` | src/main/kotlin/me/rubendm/kcsv/File.kt:37-40 | a record with the default empty headers resolves no name |
| `CsvFiles.Records` | src/main/kotlin/me/rubendm/kcsv/File.kt:14 | a plain stream has one record per line, and none carries headers |
| `CsvFiles.RecordsAt` | src/main/kotlin/me/rubendm/kcsv/File.kt:28-31 | record k of a plain stream is line k split on `;`, with empty headers |
| `CsvFiles.RecordsDrop` | src/main/kotlin/me/rubendm/kcsv/File.kt:19 | `drop(n)` on the plain records is the plain stream of the lines after the first n |
| `CsvFiles.Attach` | src/main/kotlin/me/rubendm/kcsv/File.kt:19 | `map { it.copy(headers = headers) }` keeps count, order and fields, and sets every record's headers |
| `CsvFiles.PlainContents` | src/main/kotlin/me/rubendm/kcsv/File.kt:12-15 | a plain CsvFile has empty headers and one record per line |
| `CsvFiles.WithHeaders` | src/main/kotlin/me/rubendm/kcsv/File.kt:17-20 | fails exactly when there is no first record; otherwise the headers are the first record's fields and the content is the rest, carrying them |
| `CsvFiles.Open` | src/main/kotlin/me/rubendm/kcsv/File.kt:12-20 | fails exactly for header mode over a source with no lines; every record of a stream carries that stream's headers |
| `CsvFiles.PlainStream` | src/main/kotlin/me/rubendm/kcsv/File.kt:12-15 | over N lines: empty headers and N records in input order, record k being line k split |
| `CsvFiles.HeaderStream` | src/main/kotlin/me/rubendm/kcsv/File.kt:17-20 | over L with at least one line: headers are the fields of L[0], and each later line L[k+1] gives record k, L[k+1] split with those headers |
| `CsvFiles.HeaderStreamEmpty` | src/main/kotlin/me/rubendm/kcsv/File.kt:18 | header mode over no lines fails, as `first()` throws |
| `CsvFiles.HeaderLookup` | src/main/kotlin/me/rubendm/kcsv/File.kt:19 | in header mode, a name lookup on a record resolves through the first matching header of L[0] and is absent for other names |
| `CsvFiles.SplitTwoFields` | src/main/kotlin/me/rubendm/kcsv/File.kt:29 | two delimiter-free fields joined by `;` split back into exactly those two |
| `CsvFiles.TwoLineHeaderStream` | src/test/kotlin/me/rubendm/kcsv/CsvReaderSpec.kt:20-36 | a header line plus one data line: headers, the single record, and lookup by position and by each header name |
| `CsvFiles.HelloWorldExample` | src/main/kotlin/me/rubendm/kcsv/File.kt:17-20 | lines `Hello;World`, `Foo;Bar` in header mode give headers `[Hello, World]`, one record `[Foo, Bar]`, and `Hello` finds `Foo` |
| `CsvFiles.CsvIterator.constructor` | src/main/kotlin/me/rubendm/kcsv/File.kt:23-24 | after construction the lookahead holds the first line, or null when there are none |
| `CsvFiles.CsvIterator.ReadLine` | src/main/kotlin/me/rubendm/kcsv/File.kt:30 | `readLine()` delivers the next undelivered line, or null at the end |
| `CsvFiles.CsvIterator.HasNext` | src/main/kotlin/me/rubendm/kcsv/File.kt:26 | true exactly when the lookahead is a line, that is, while lines remain |
| `CsvFiles.CsvIterator.Next` | src/main/kotlin/me/rubendm/kcsv/File.kt:28-34 | returns the lookahead split on `;` with no headers and advances exactly one line; fails with NoSuchElement once exhausted |
| `CsvFiles.Collect` | src/main/kotlin/me/rubendm/kcsv/File.kt:14 | iterating a CsvFile's content to the end yields exactly the plain records of its lines, in order |
| `Readers.File.ToUri` | src/main/kotlin/me/rubendm/kcsv/Reader.kt:21-37 | a regular file reports its path, a remote file its url, a zip layer the uri of what it wraps |
| `Readers.File.Origin` | src/main/kotlin/me/rubendm/kcsv/Reader.kt:29 | under all zip layers is a regular or remote source, and every layer reports its uri |
| `Readers.CsvReader.FromPath` | src/main/kotlin/me/rubendm/kcsv/Reader.kt:12 | headers off, no zip layer, a regular file with that path's uri |
| `Readers.CsvReader.FromUrl` | src/main/kotlin/me/rubendm/kcsv/Reader.kt:13 | headers off, no zip layer, a remote file with that url's uri |
| `Readers.CsvReader.WithHeaders` | src/main/kotlin/me/rubendm/kcsv/Reader.kt:16 | sets the flag and keeps the source |
| `Readers.CsvReader.Zipped` | src/main/kotlin/me/rubendm/kcsv/Reader.kt:17 | exactly one more zip layer over the same origin and uri; the flag is kept |
| `Readers.CsvReader.Read` | src/main/kotlin/me/rubendm/kcsv/Reader.kt:18 | the header pipeline exactly when the flag is on, always over the configured source |
| `Readers.ZippedTimesLayers` | src/main/kotlin/me/rubendm/kcsv/Reader.kt:17 | n calls of `zipped()` add n layers and keep origin, uri and flag |
| `Readers.WithHeadersIdempotent` | src/main/kotlin/me/rubendm/kcsv/Reader.kt:16 | `withHeaders()` twice equals once |
| `Readers.ZippedNotIdempotent` | src/main/kotlin/me/rubendm/kcsv/Reader.kt:17 | `zipped()` twice differs from once: two layers |
| `Readers.TogglesCommute` | src/main/kotlin/me/rubendm/kcsv/Reader.kt:16-17 | both orders of the toggles give one zip layer over the source with headers on |
| `Readers.VariantsIndependent` | src/main/kotlin/me/rubendm/kcsv/Reader.kt:10-17 | variants from one base keep the base's other setting, and differ from each other |
| `Readers.ReadPlain` | src/main/kotlin/me/rubendm/kcsv/Reader.kt:18 | without the flag, `read()` is the plain stream of the source's lines |
| `Readers.ReadWithHeaders` | src/main/kotlin/me/rubendm/kcsv/Reader.kt:18 | with the flag, `read()` fails on no lines, else gives the header-mode stream of the source's lines |
| `FileReaders.From` | src/main/kotlin/me/rubendm/kcsv/CsvReader.kt:9 | `CsvReader.from(path)` is `csvFor(path)`: headers off, reading the file at that path |
| `FileReaders.CsvFileReader.CsvFor` | src/main/kotlin/me/rubendm/kcsv/CsvReader.kt:14 | a regular file with that path, headers off |
| `FileReaders.CsvFileReader.WithHeaders` | src/main/kotlin/me/rubendm/kcsv/CsvReader.kt:17 | sets the flag and keeps the file |
| `FileReaders.CsvFileReader.Zipped` | src/main/kotlin/me/rubendm/kcsv/CsvReader.kt:19 | wraps the file in one zip layer with the same path; the flag is kept |
| `FileReaders.CsvFileReader.Read` | src/main/kotlin/me/rubendm/kcsv/CsvReader.kt:21 | the header pipeline exactly when the flag is on, always over the configured file |
| `FileReaders.File.Path` | src/main/kotlin/me/rubendm/kcsv/CsvReader.kt:24-32 | every file is the regular file at its `path` wrapped in some zip layers |
| `FileReaders.File.Stream` | src/main/kotlin/me/rubendm/kcsv/CsvReader.kt:28-37 | what is opened is always at the file's path: the file itself with no layer, the archive's first entry with any |
| `FileReaders.ReadPipeline` | src/main/kotlin/me/rubendm/kcsv/CsvReader.kt:21 | `read()` is the plain stream without the flag, and the header-mode stream (failing on no lines) with it |
| `FileReaders.WrappedPath` | src/main/kotlin/me/rubendm/kcsv/CsvReader.kt:32 | zip layers keep the wrapped file's path |
| `FileReaders.ZipLayersCollapse` | src/main/kotlin/me/rubendm/kcsv/CsvReader.kt:32-36 | any number of zip layers opens the first entry of the archive at the innermost file's path |
| `FileReaders.ZippedTwiceReadsAsOnce` | src/main/kotlin/me/rubendm/kcsv/CsvReader.kt:19 | `zipped().zipped()` opens the same entry, and reads the same stream, as `zipped()` |
| `FileReaders.LineCursor.constructor` | src/main/kotlin/me/rubendm/kcsv/CsvReader.kt:66-67 | after construction the lookahead holds the first line, or null when there are none |
| `FileReaders.LineCursor.ReadLine` | src/main/kotlin/me/rubendm/kcsv/CsvReader.kt:72 | `readLine()` delivers the next undelivered line, or null at the end |
| `FileReaders.LineCursor.HasNext` | src/main/kotlin/me/rubendm/kcsv/CsvReader.kt:68 | true exactly when the lookahead is a line |
| `FileReaders.LineCursor.Next` | src/main/kotlin/me/rubendm/kcsv/CsvReader.kt:70-76 | returns the lookahead split on `;` with no headers and advances one line; fails with NoSuchElement once exhausted |
| `FileReaders.Collect` | src/main/kotlin/me/rubendm/kcsv/CsvReader.kt:63-79 | iterating `Lines` to the end yields exactly the plain records of the lines, in order |

## Left out

- Opening a byte stream is not modelled: the local file `inputStream()`, `ZipInputStream`, `java.util.zip.ZipFile` first-entry extraction and `URL.openStream()` (Reader.kt:25-39, CsvReader.kt:28-37). This is filesystem and network I/O. What a source delivers is the parameter `fetch`. In the earlier version, the model does record what is opened (`Access`).
- For Reader.kt there is no property relating a zip layer's lines to the archived payload. Unzipping is library behaviour, so `fetch` on a zip layer is unconstrained.
- Text decoding and line breaking by `BufferedReader.readLine()` are library behaviour. The model starts from the already-split lines.
- The laziness and single-pass nature of Kotlin `Sequence` are not modelled. The header-mode `content` is a stored sequence that can be iterated only once. File.kt's `CsvFile` reads its first line when the `content` getter runs and is constrained to one iteration (`asSequence()`). CsvReader.kt's `Lines` reads its first line only when `iterator()` is called. Iterating it again wraps the same, partly consumed stream in a new reader instead of throwing. Streams are never closed. Content is modelled as a finite `seq`.
- `CsvFileWithHeaders` over anything but a plain `CsvFile` is not modelled. `read()` never builds such a stream. Over a header-mode stream it would iterate a single-pass sequence twice.
- Readers.CsvReader.Read: returns a description of the pipeline, and the failure appears only in `Open`. In Kotlin, header-mode `read()` is eager: constructing `CsvFileWithHeaders` (File.kt:18-19, CsvReader.kt:50-51) opens the source twice and reads its first line inside `read()`. So `NoSuchElementException`, and any failure to open the source, is thrown by `read()` itself. Plain-mode `read()` opens nothing.
- FileReaders.CsvFileReader.Read: the same as `Readers.CsvReader.Read`. Header-mode `read()` throws from inside `read()` (CsvReader.kt:50-51), and the model shows the failure only in `Open`.
- Readers.CsvReader.FromUrl: never fails. In Kotlin, `RemoteFile(url)` calls `url.toURI()` (Reader.kt:37), which can throw `URISyntaxException` for a malformed url.
- Readers.File.ToUri: keeps paths and urls as two separate tags, `PathUri` and `UrlUri`. Kotlin has one `URI` type, and `path.toUri()` (Reader.kt:25) makes the path absolute against the working directory; that conversion is library behaviour and is not modelled.
- CsvFiles.CsvLine.Get: takes a natural index. A negative index makes Kotlin's list indexing throw, and that exception is not modelled.
- The package-level clash of `Csv`, `CsvLine`, `File` and `CsvReader` between CsvReader.kt and File.kt/Reader.kt is not modelled. The two are kept apart as two modules.
- `private` visibility of the builders' constructors and fields is not modelled. Immutability comes from the builders being datatype values.
- The test suite's fixtures (the `STATIC_URL` variable, the local HTTP server, the resource paths) are setup, not logic.
