/** The earlier version of the reader: the builder `CsvFileReader` (reached
    through `CsvReader.from`), its own source union `File` (a regular file
    or a zip layer, both identified by a path) and its own line cursor over
    an opened stream. Its `CsvLine` and `CsvFileWithHeaders` are textually
    those of File.kt, and its `CsvFile` yields the same records in a single
    pass, so all three are shared with `CsvFiles`.

    The cursor is kept as a class of its own, `LineCursor`, because the file
    declares its own iterator (the anonymous one inside `Lines`) rather
    than reusing `CsvIterator`; its contracts coincide with those of
    `CsvIterator`.

    Opening a source is I/O; the model records WHAT is opened (an `Access`)
    and takes what an access delivers as the parameter `fetch`. */
module FileReaders {
  import opened CsvFiles

  type Path = string

  /** What opening a source reads: a file itself, or the first entry of the
      zip archive stored at a path. */
  datatype Access = ReadFile(path: Path) | FirstZipEntry(archive: Path)

  datatype File = RegularFile(file: Path) | ZipFile(inner: File) {

    /** `path`: a zip layer reports the path of the source it wraps, so
        every file is the regular file at its path under some zip layers. */
    function Path(): (path: Path)
      ensures this == Wrapped(RegularFile(path), Layers())
    {
      match this
      case RegularFile(file) => file
      case ZipFile(inner) => inner.Path()
    }

    /** The number of zip layers around the regular file. */
    function Layers(): nat {
      match this
      case RegularFile(_) => 0
      case ZipFile(inner) => inner.Layers() + 1
    }

    /** `stream`: a zip layer opens the archive at its own path, never the
        stream of the source it wraps; so what is opened is always at the
        regular file's path, read as an archive when there is any layer. */
    function Stream(): (access: Access)
      ensures access.ReadFile? <==> Layers() == 0
      ensures access == ReadFile(Path()) || access == FirstZipEntry(Path())
    {
      match this
      case RegularFile(file) => ReadFile(file)
      case ZipFile(_) => FirstZipEntry(Path())
    }
  }

  /** The file wrapped in n more zip layers. */
  function Wrapped(file: File, n: nat): File {
    if n == 0 then file else ZipFile(Wrapped(file, n - 1))
  }

  /** Zip layers never change the path. */
  lemma {:induction false} WrappedPath(file: File, n: nat)
    ensures Wrapped(file, n).Path() == file.Path()
  {
    if n > 0 {
      WrappedPath(file, n - 1);
    }
  }

  /** However many zip layers wrap a file, opening it reads the first entry
      of the archive at the file's path: the layers collapse into one. */
  lemma ZipLayersCollapse(file: File, n: nat)
    ensures Wrapped(file, n + 1).Stream() == FirstZipEntry(file.Path())
  {
    WrappedPath(file, n);
  }

  /** The lines a source delivers, given what each access delivers. */
  function Opener(fetch: Access -> seq<string>): File -> seq<string> {
    (file: File) => fetch(file.Stream())
  }

  datatype CsvFileReader = CsvFileReader(file: File, withHeaders: bool) {

    /** `csvFor(path)`: a regular file, headers off. */
    static function CsvFor(path: Path): (r: CsvFileReader)
      ensures !r.withHeaders && r.file.RegularFile? && r.file.Path() == path
    {
      CsvFileReader(RegularFile(path), false)
    }

    /** `withHeaders()`: the flag is on and the file is unchanged. */
    function WithHeaders(): (r: CsvFileReader)
      ensures r.withHeaders && r.file == file
    {
      CsvFileReader(file, true)
    }

    /** `zipped()`: one zip layer over the same path, the flag unchanged. */
    function Zipped(): (r: CsvFileReader)
      ensures r.withHeaders == withHeaders
      ensures r.file.ZipFile? && r.file.inner == file && r.file.Path() == file.Path()
    {
      CsvFileReader(ZipFile(file), withHeaders)
    }

    /** `read()`: the header pipeline exactly when the flag is on, over the
        configured file. */
    function Read(): (r: Csv<File>)
      ensures r.CsvFileWithHeaders? <==> withHeaders
      ensures r.source == file
    {
      if withHeaders then CsvFileWithHeaders(file) else CsvFile(file)
    }
  }

  /** `CsvReader.from(path)`. */
  function From(path: Path): (r: CsvFileReader)
    ensures r == CsvFileReader.CsvFor(path)
    ensures !r.withHeaders && r.file.Stream() == ReadFile(path)
  {
    CsvFileReader.CsvFor(path)
  }

  /** `read()` yields the plain stream of the file's lines without the
      flag; with it, it fails on a file with no lines, and otherwise takes
      the first line's fields as headers and yields the other lines split
      and carrying them. */
  lemma ReadPipeline(reader: CsvFileReader, fetch: Access -> seq<string>)
    ensures var lines := fetch(reader.file.Stream());
            var r := Open(reader.Read(), Opener(fetch));
            && (!reader.withHeaders ==> r == Ok(Contents([], Records(lines))))
            && (reader.withHeaders && lines == [] ==> r == Err(NoSuchElement))
            && (reader.withHeaders && lines != [] ==>
                  r == Ok(Contents(Split(lines[0]), Attach(Records(lines[1..]), Split(lines[0])))))
  {
    var lines := fetch(reader.file.Stream());
    if lines != [] {
      RecordsAt(lines, 0);
      RecordsDrop(lines, 1);
    }
  }

  /** Because a zip layer opens the archive at the wrapped file's path,
      zipping twice opens the same entry as zipping once, and so reads the
      same stream. */
  lemma ZippedTwiceReadsAsOnce(reader: CsvFileReader, fetch: Access -> seq<string>)
    ensures reader.Zipped().Zipped().file.Stream() == reader.Zipped().file.Stream()
    ensures Open(reader.Zipped().Zipped().Read(), Opener(fetch)) == Open(reader.Zipped().Read(), Opener(fetch))
  {
  }

  /** The cursor of `Lines`: one line of lookahead over an opened stream.
      `reader` holds the lines the underlying reader has not yet delivered;
      `lines` and `pos` are the abstract view (all lines, and the index of
      the lookahead). */
  class LineCursor {
    ghost const lines: seq<string>
    ghost var pos: nat
    var reader: seq<string>
    var line: Option<string>

    ghost predicate Valid()
      reads this
    {
      && pos <= |lines|
      && (pos < |lines| ==> line == Some(lines[pos]) && reader == lines[pos + 1..])
      && (pos == |lines| ==> line == None && reader == [])
    }

    /** Reads the first line into the lookahead. */
    constructor (input: seq<string>)
      ensures Valid() && lines == input && pos == 0
    {
      lines := input;
      pos := 0;
      reader := input;
      new;
      line := ReadLine();
    }

    /** `readLine()`: the next undelivered line, or `null` at the end. */
    method ReadLine() returns (next: Option<string>)
      modifies this`reader
      ensures old(reader) == [] ==> next == None && reader == []
      ensures old(reader) != [] ==> next == Some(old(reader)[0]) && reader == old(reader)[1..]
    {
      if reader == [] {
        next := None;
      } else {
        next := Some(reader[0]);
        reader := reader[1..];
      }
    }

    /** `hasNext()`: the lookahead holds a line. */
    function HasNext(): (b: bool)
      reads this
      requires Valid()
      ensures b <==> pos < |lines|
    {
      line.Some?
    }

    /** `next()`: the lookahead split on `;`, with no headers, and the
        lookahead moves one line on; fails once the lines are exhausted. */
    method Next() returns (r: Result<CsvLine>)
      requires Valid()
      modifies this
      ensures Valid()
      ensures old(pos) < |lines| ==> r == Ok(CsvLine(Split(lines[old(pos)]), [])) && pos == old(pos) + 1
      ensures old(pos) == |lines| ==> r == Err(NoSuchElement) && pos == old(pos)
    {
      if HasNext() {
        r := Ok(CsvLine(Split(line.value), []));
        pos := pos + 1;
        line := ReadLine();
      } else {
        r := Err(NoSuchElement);
      }
    }
  }

  /** Iterating `Lines` over a stream that delivers `input` to the end:
      exactly the plain records of the input, in order. */
  method Collect(input: seq<string>) returns (records: seq<CsvLine>)
    ensures records == Records(input)
  {
    var cursor := new LineCursor(input);
    records := [];
    while cursor.HasNext()
      invariant cursor.Valid() && cursor.lines == input
      invariant records == Records(input[..cursor.pos])
      decreases |input| - cursor.pos
    {
      var r := cursor.Next();
      assert input[..cursor.pos][..cursor.pos - 1] == input[..cursor.pos - 1];
      records := records + [r.value];
    }
    assert input[..cursor.pos] == input;
  }
}
