/** The builder `CsvReader` and the source union `File` (regular file,
    remote URL, or one zip layer around another source).

    A builder is an immutable value: every toggle returns a new one and the
    receiver keeps its source and flag. What a source delivers when it is
    opened (file I/O, network, unzipping) is the parameter `fetch`. */
module Readers {
  import opened CsvFiles

  type Path = string
  type Url = string

  /** The `uri` a source reports. */
  datatype Uri = PathUri(path: Path) | UrlUri(url: Url)

  datatype File = RegularFile(path: Path) | RemoteFile(url: Url) | ZipFile(file: File) {

    /** `uri`: a regular file reports its path, a remote file its url, and
        a zip layer the uri of the source it wraps. */
    function ToUri(): (uri: Uri)
      ensures RegularFile? ==> uri == PathUri(path)
      ensures RemoteFile? ==> uri == UrlUri(url)
      ensures ZipFile? ==> uri == file.ToUri()
    {
      match this
      case RegularFile(path) => PathUri(path)
      case RemoteFile(url) => UrlUri(url)
      case ZipFile(file) => file.ToUri()
    }

    /** The number of zip layers around the origin. */
    function ZipLayers(): nat {
      match this
      case ZipFile(file) => file.ZipLayers() + 1
      case _ => 0
    }

    /** The regular or remote source under all zip layers, whose uri every
        layer reports. */
    function Origin(): (origin: File)
      ensures !origin.ZipFile? && origin.ZipLayers() == 0
      ensures origin.ToUri() == ToUri()
    {
      match this
      case ZipFile(file) => file.Origin()
      case _ => this
    }
  }

  datatype CsvReader = CsvReader(file: File, withHeaders: bool) {

    /** `from(path)`: a regular file, no zip layer, headers off. */
    static function FromPath(path: Path): (r: CsvReader)
      ensures !r.withHeaders && r.file.ZipLayers() == 0
      ensures r.file.Origin() == RegularFile(path) && r.file.ToUri() == PathUri(path)
    {
      CsvReader(RegularFile(path), false)
    }

    /** `from(url)`: a remote file, no zip layer, headers off. */
    static function FromUrl(url: Url): (r: CsvReader)
      ensures !r.withHeaders && r.file.ZipLayers() == 0
      ensures r.file.Origin() == RemoteFile(url) && r.file.ToUri() == UrlUri(url)
    {
      CsvReader(RemoteFile(url), false)
    }

    /** `withHeaders()`: the flag is on and the source is unchanged. */
    function WithHeaders(): (r: CsvReader)
      ensures r.withHeaders && r.file == file
    {
      CsvReader(file, true)
    }

    /** `zipped()`: one more zip layer over the same origin and uri, the
        flag unchanged. */
    function Zipped(): (r: CsvReader)
      ensures r.withHeaders == withHeaders
      ensures r.file.ZipLayers() == file.ZipLayers() + 1
      ensures r.file.Origin() == file.Origin() && r.file.ToUri() == file.ToUri()
    {
      CsvReader(ZipFile(file), withHeaders)
    }

    /** `read()`: the header pipeline exactly when the flag is on, over the
        configured source. */
    function Read(): (r: Csv<File>)
      ensures r.CsvFileWithHeaders? <==> withHeaders
      ensures r.source == file
    {
      if withHeaders then CsvFileWithHeaders(file) else CsvFile(file)
    }
  }

  /** `zipped()` applied n times. */
  function ZippedTimes(reader: CsvReader, n: nat): CsvReader {
    if n == 0 then reader else ZippedTimes(reader, n - 1).Zipped()
  }

  /** Each `zipped()` adds exactly one layer and keeps the origin, the uri
      and the header flag. */
  lemma {:induction false} ZippedTimesLayers(reader: CsvReader, n: nat)
    ensures ZippedTimes(reader, n).file.ZipLayers() == reader.file.ZipLayers() + n
    ensures ZippedTimes(reader, n).file.Origin() == reader.file.Origin()
    ensures ZippedTimes(reader, n).file.ToUri() == reader.file.ToUri()
    ensures ZippedTimes(reader, n).withHeaders == reader.withHeaders
  {
    if n > 0 {
      ZippedTimesLayers(reader, n - 1);
    }
  }

  /** Turning headers on twice is the same as once. */
  lemma WithHeadersIdempotent(reader: CsvReader)
    ensures reader.WithHeaders().WithHeaders() == reader.WithHeaders()
  {
  }

  /** `zipped()` is not idempotent: twice gives two layers. */
  lemma ZippedNotIdempotent(reader: CsvReader)
    ensures reader.Zipped().Zipped() != reader.Zipped()
    ensures reader.Zipped().Zipped().file.ZipLayers() == reader.file.ZipLayers() + 2
  {
  }

  /** The two toggles commute. */
  lemma TogglesCommute(reader: CsvReader)
    ensures reader.WithHeaders().Zipped() == reader.Zipped().WithHeaders()
    ensures reader.Zipped().WithHeaders() == CsvReader(ZipFile(reader.file), true)
  {
  }

  /** Variants derived from one base are independent of it and of each
      other: the base keeps its source and flag, a zipped variant keeps the
      base's flag, and a header variant keeps the base's source. */
  lemma VariantsIndependent(base: CsvReader)
    ensures var headed := base.WithHeaders();
            var zipped := base.Zipped();
            && zipped.withHeaders == base.withHeaders
            && headed.file == base.file
            && headed.withHeaders
            && zipped.file != headed.file
  {
  }

  /** Without the flag, `read()` is the plain stream of the source's lines. */
  lemma ReadPlain(reader: CsvReader, fetch: File -> seq<string>)
    requires !reader.withHeaders
    ensures Open(reader.Read(), fetch) == Ok(Contents([], Records(fetch(reader.file))))
  {
  }

  /** With the flag, `read()` fails on a source with no lines, and
      otherwise takes the first line's fields as headers and yields the
      other lines split and carrying them. */
  lemma ReadWithHeaders(reader: CsvReader, fetch: File -> seq<string>)
    requires reader.withHeaders
    ensures var lines := fetch(reader.file);
            && (lines == [] ==> Open(reader.Read(), fetch) == Err(NoSuchElement))
            && (lines != [] ==>
                  && Open(reader.Read(), fetch).Ok?
                  && Open(reader.Read(), fetch).value.headers == Split(lines[0])
                  && Open(reader.Read(), fetch).value.content == Attach(Records(lines[1..]), Split(lines[0])))
  {
    var lines := fetch(reader.file);
    if lines != [] {
      RecordsAt(lines, 0);
      RecordsDrop(lines, 1);
    }
  }
}
