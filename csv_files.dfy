/** The record layer of the reader: splitting a line on `;`, the record
    `CsvLine` with its positional and name lookups, the two stream shapes
    `CsvFile` and `CsvFileWithHeaders`, and the line cursor `CsvIterator`
    that turns the lines of an opened source into records.

    Opening a source and decoding it into lines is I/O; it is taken as a
    function `fetch` from a source to the lines it delivers. */
module CsvFiles {

  /** A Kotlin nullable value: `None` stands for `null`. */
  datatype Option<T> = None | Some(value: T)

  /** The only failure of the record layer: `first()` on an empty sequence
      and `next()` on an exhausted iterator throw NoSuchElementException. */
  datatype Failure = NoSuchElement

  datatype Result<T> = Ok(value: T) | Err(failure: Failure)

  // ---------------------------------------------------------------------
  // Fields of a line
  // ---------------------------------------------------------------------

  /** `line.split(";")`: every `;` ends a field, empty fields are kept
      (also a trailing one), and there is no quoting. */
  function Split(line: string): (fields: seq<string>)
    ensures |fields| >= 1
    decreases |line|
  {
    if line == [] then [""]
    else
      var tail := Split(line[1..]);
      if line[0] == ';' then [""] + tail
      else [[line[0]] + tail[0]] + tail[1..]
  }

  /** The fields glued back together with `;` between them. */
  function Join(fields: seq<string>): (line: string)
    requires |fields| >= 1
    decreases |fields|
  {
    if |fields| == 1 then fields[0] else fields[0] + ";" + Join(fields[1..])
  }

  predicate NoDelimiter(field: string) {
    ';' !in field
  }

  lemma SplitEmptyLine()
    ensures Split("") == [""]
  {
  }

  /** A line with n delimiters has n + 1 fields. */
  lemma {:induction false} SplitFieldCount(line: string)
    ensures |Split(line)| == multiset(line)[';'] + 1
    decreases |line|
  {
    if line != [] {
      SplitFieldCount(line[1..]);
      assert line == [line[0]] + line[1..];
      assert multiset(line) == multiset([line[0]]) + multiset(line[1..]);
    }
  }

  /** No field produced by Split contains the delimiter. */
  lemma {:induction false} SplitFieldsHaveNoDelimiter(line: string)
    ensures forall k :: 0 <= k < |Split(line)| ==> NoDelimiter(Split(line)[k])
    decreases |line|
  {
    if line != [] {
      SplitFieldsHaveNoDelimiter(line[1..]);
      var tail := Split(line[1..]);
      if line[0] != ';' {
        assert NoDelimiter(tail[0]);
        assert NoDelimiter([line[0]] + tail[0]);
      }
    }
  }

  /** Joining the fields of a line gives the line back. */
  lemma {:induction false} JoinSplit(line: string)
    ensures Join(Split(line)) == line
    decreases |line|
  {
    if line != [] {
      JoinSplit(line[1..]);
      var tail := Split(line[1..]);
      if line[0] == ';' {
        assert ([""] + tail)[1..] == tail;
        assert line == [';'] + line[1..];
      } else {
        var fields := [[line[0]] + tail[0]] + tail[1..];
        assert fields[1..] == tail[1..];
        if |tail| == 1 {
          assert line == [line[0]] + line[1..];
        } else {
          assert Join(tail) == tail[0] + ";" + Join(tail[1..]);
          assert line == [line[0]] + line[1..];
        }
      }
    }
  }

  /** Split on a line whose first field is `prefix` followed by `rest`. */
  lemma {:induction false} SplitPrefix(prefix: string, rest: string)
    requires NoDelimiter(prefix)
    ensures Split(prefix + rest) == [prefix + Split(rest)[0]] + Split(rest)[1..]
    decreases |prefix|
  {
    if prefix == [] {
      var s := Split(rest);
      assert prefix + rest == rest;
      assert prefix + s[0] == s[0];
      assert s == [s[0]] + s[1..];
    } else {
      assert prefix[0] in prefix;
      assert NoDelimiter(prefix[1..]) by { assert forall c :: c in prefix[1..] ==> c in prefix; }
      SplitPrefix(prefix[1..], rest);
      var s := Split(rest);
      var t := Split(prefix[1..] + rest);
      assert t == [prefix[1..] + s[0]] + s[1..];
      assert (prefix + rest)[0] == prefix[0] != ';';
      assert (prefix + rest)[1..] == prefix[1..] + rest;
      assert Split(prefix + rest) == [[prefix[0]] + t[0]] + t[1..];
      assert t[1..] == s[1..];
      assert [prefix[0]] + (prefix[1..] + s[0]) == prefix + s[0];
    }
  }

  /** Splitting fields joined with `;` gives them back, provided no field
      holds a `;` itself. */
  lemma {:induction false} SplitJoin(fields: seq<string>)
    requires |fields| >= 1
    requires forall k :: 0 <= k < |fields| ==> NoDelimiter(fields[k])
    ensures Split(Join(fields)) == fields
    decreases |fields|
  {
    if |fields| == 1 {
      SplitPrefix(fields[0], "");
      assert fields[0] + "" == fields[0];
    } else {
      SplitJoin(fields[1..]);
      var rest := Join(fields[1..]);
      SplitPrefix(fields[0], ";" + rest);
      assert (";" + rest)[0] == ';';
      assert (";" + rest)[1..] == rest;
      var s := Split(";" + rest);
      assert s == [""] + fields[1..];
      assert s[0] == "" && s[1..] == fields[1..];
      assert fields[0] + ";" + rest == fields[0] + (";" + rest);
      assert fields[0] + s[0] == fields[0];
      assert fields == [fields[0]] + fields[1..];
    }
  }

  // ---------------------------------------------------------------------
  // The record
  // ---------------------------------------------------------------------

  /** `k` is the index of the first occurrence of `name` in `headers`. */
  predicate IsFirstIndex(headers: seq<string>, name: string, k: int) {
    0 <= k < |headers| && headers[k] == name && name !in headers[..k]
  }

  lemma FirstIndexUnique(headers: seq<string>, name: string, j: int, k: int)
    requires IsFirstIndex(headers, name, j) && IsFirstIndex(headers, name, k)
    ensures j == k
  {
  }

  /** `headers.indexOf(name)` for a name that occurs in `headers`. */
  function IndexOf(headers: seq<string>, name: string): (k: nat)
    requires name in headers
    ensures IsFirstIndex(headers, name, k)
  {
    if headers[0] == name then 0
    else
      var k := IndexOf(headers[1..], name) + 1;
      assert headers[..k] == [headers[0]] + headers[1..][..k - 1];
      k
  }

  /** One record: its fields, and the header names attached to it (empty
      unless the record comes out of header mode). */
  datatype CsvLine = CsvLine(content: seq<string>, headers: seq<string>) {

    /** `toList()`: the fields, in order, each reachable by `Get`. */
    function ToList(): (fields: seq<string>)
      ensures |fields| == |content|
      ensures forall k: nat :: k < |fields| ==> Get(k) == Some(fields[k])
    {
      content
    }

    /** `get(i)`: absent past the end of the fields, never an error. */
    function Get(i: nat): (field: Option<string>)
      ensures field.None? <==> i >= |content|
      ensures field.Some? ==> field.value == content[i]
    {
      if i >= |content| then None else Some(content[i])
    }

    /** `get(name)`: the field at the first header equal to `name`; absent
        when no header is `name`, or when this row is shorter than that
        header's position. */
    function GetByName(name: string): (field: Option<string>)
      ensures name !in headers ==> field == None
      ensures forall k :: IsFirstIndex(headers, name, k) ==>
                field == (if k < |content| then Some(content[k]) else None)
    {
      if name in headers then
        var k := IndexOf(headers, name);
        assert forall j :: IsFirstIndex(headers, name, j) ==> j == k by {
          forall j | IsFirstIndex(headers, name, j) ensures j == k {
            FirstIndexUnique(headers, name, j, k);
          }
        }
        Get(k)
      else None
    }
  }

  /** A record without headers never resolves a name. */
  lemma NoHeadersNoName(content: seq<string>, name: string)
    ensures CsvLine(content, []).GetByName(name) == None
  {
  }

  // ---------------------------------------------------------------------
  // Streams of records
  // ---------------------------------------------------------------------

  /** The records a plain CsvFile yields for the given lines: each line
      split on `;`, with no headers. */
  function Records(lines: seq<string>): (records: seq<CsvLine>)
    ensures |records| == |lines|
    ensures forall k :: 0 <= k < |records| ==> records[k].headers == []
  {
    if lines == [] then []
    else Records(lines[..|lines| - 1]) + [CsvLine(Split(lines[|lines| - 1]), [])]
  }

  /** Record k of a plain stream is line k split on `;`. */
  lemma {:induction false} RecordsAt(lines: seq<string>, k: nat)
    requires k < |lines|
    ensures Records(lines)[k] == CsvLine(Split(lines[k]), [])
  {
    if k < |lines| - 1 {
      var init := lines[..|lines| - 1];
      RecordsAt(init, k);
      assert Records(lines)[k] == Records(init)[k];
    }
  }

  lemma RecordsDropAt(lines: seq<string>, n: nat, k: nat)
    requires n + k < |lines|
    ensures Records(lines)[n + k] == Records(lines[n..])[k]
  {
    RecordsAt(lines, n + k);
    RecordsAt(lines[n..], k);
    assert lines[n..][k] == lines[n + k];
  }

  /** Dropping n records of a stream is the stream of the lines after n. */
  lemma RecordsDrop(lines: seq<string>, n: nat)
    requires n <= |lines|
    ensures Records(lines)[n..] == Records(lines[n..])
  {
    var dropped, rest := Records(lines)[n..], Records(lines[n..]);
    assert |dropped| == |rest|;
    forall k | 0 <= k < |rest|
      ensures dropped[k] == rest[k]
    {
      RecordsDropAt(lines, n, k);
    }
  }

  /** `map { it.copy(headers = headers) }`. */
  function Attach(records: seq<CsvLine>, headers: seq<string>): (attached: seq<CsvLine>)
    ensures |attached| == |records|
    ensures forall k :: 0 <= k < |attached| ==>
              attached[k].content == records[k].content && attached[k].headers == headers
  {
    if records == [] then []
    else [records[0].(headers := headers)] + Attach(records[1..], headers)
  }

  /** The two stream shapes. The header stage is modelled over a plain
      CsvFile, the only stream it is ever given. */
  datatype Csv<S> = CsvFile(source: S) | CsvFileWithHeaders(source: S)

  /** What a stream exposes: `headers` and `content`. */
  datatype Contents = Contents(headers: seq<string>, content: seq<CsvLine>)

  /** A plain CsvFile over the given lines. */
  function PlainContents(lines: seq<string>): (plain: Contents)
    ensures plain.headers == []
    ensures |plain.content| == |lines|
  {
    Contents([], Records(lines))
  }

  /** CsvFileWithHeaders over a plain stream: the first record's fields
      become the headers, and the remaining records carry them. Fails when
      there is no first record. */
  function WithHeaders(plain: Contents): (r: Result<Contents>)
    ensures r.Err? <==> plain.content == []
    ensures r.Ok? ==> r.value.headers == plain.content[0].ToList()
    ensures r.Ok? ==> r.value.content == Attach(plain.content[1..], r.value.headers)
  {
    if plain.content == [] then Err(NoSuchElement)
    else
      var headers := plain.content[0].ToList();
      Ok(Contents(headers, Attach(plain.content[1..], headers)))
  }

  /** Reading a stream whose source delivers `fetch(source)`. Every record
      of the outcome carries exactly the stream's headers. */
  function Open<S>(csv: Csv<S>, fetch: S -> seq<string>): (r: Result<Contents>)
    ensures r.Err? <==> csv.CsvFileWithHeaders? && fetch(csv.source) == []
    ensures r.Ok? ==> forall k :: 0 <= k < |r.value.content| ==>
              r.value.content[k].headers == r.value.headers
  {
    match csv
    case CsvFile(source) => Ok(PlainContents(fetch(source)))
    case CsvFileWithHeaders(source) => WithHeaders(PlainContents(fetch(source)))
  }

  /** A plain stream over N lines: no headers, and N records in input
      order, record k being line k split on `;`. */
  lemma PlainStream<S>(source: S, fetch: S -> seq<string>)
    ensures Open(CsvFile(source), fetch).Ok?
    ensures Open(CsvFile(source), fetch).value.headers == []
    ensures |Open(CsvFile(source), fetch).value.content| == |fetch(source)|
    ensures forall k :: 0 <= k < |fetch(source)| ==>
              Open(CsvFile(source), fetch).value.content[k] == CsvLine(Split(fetch(source)[k]), [])
  {
    forall k | 0 <= k < |fetch(source)|
      ensures Open(CsvFile(source), fetch).value.content[k] == CsvLine(Split(fetch(source)[k]), [])
    {
      RecordsAt(fetch(source), k);
    }
  }

  /** Header mode over lines L with at least one line: the headers are
      the fields of L[0], and the content is the other |L| - 1 lines in
      order, each split on `;` and carrying those headers. */
  lemma HeaderStream(lines: seq<string>)
    requires |lines| >= 1
    ensures WithHeaders(PlainContents(lines)).Ok?
    ensures WithHeaders(PlainContents(lines)).value.headers == Split(lines[0])
    ensures |WithHeaders(PlainContents(lines)).value.content| == |lines| - 1
    ensures forall k :: 0 <= k < |lines| - 1 ==>
              WithHeaders(PlainContents(lines)).value.content[k] == CsvLine(Split(lines[k + 1]), Split(lines[0]))
  {
    RecordsAt(lines, 0);
    RecordsDrop(lines, 1);
    forall k | 0 <= k < |lines| - 1
      ensures WithHeaders(PlainContents(lines)).value.content[k] == CsvLine(Split(lines[k + 1]), Split(lines[0]))
    {
      RecordsAt(lines[1..], k);
    }
  }

  /** Header mode over no lines at all fails, like `first()` does. */
  lemma HeaderStreamEmpty()
    ensures WithHeaders(PlainContents([])) == Err(NoSuchElement)
  {
  }

  /** In header mode, a name lookup on record k resolves through the first
      header equal to that name, and is absent for any other name. */
  lemma HeaderLookup(lines: seq<string>, k: nat, name: string)
    requires |lines| >= 1 && k < |lines| - 1
    ensures var record := WithHeaders(PlainContents(lines)).value.content[k];
            var headers := Split(lines[0]);
            var fields := Split(lines[k + 1]);
            && (name !in headers ==> record.GetByName(name) == None)
            && (name in headers ==>
                  var j := IndexOf(headers, name);
                  record.GetByName(name) == if j < |fields| then Some(fields[j]) else None)
  {
    HeaderStream(lines);
  }

  /** A line holding two delimiter-free fields splits into exactly them. */
  lemma SplitTwoFields(first: string, second: string)
    requires NoDelimiter(first) && NoDelimiter(second)
    ensures Split(first + ";" + second) == [first, second]
  {
    SplitJoin([first, second]);
    assert Join([first, second]) == first + ";" + Join([second]);
  }

  /** A header line and one data line of two fields each: the headers are
      the first line's fields, the one record holds the second line's
      fields, and each header name finds the field below it. */
  lemma TwoLineHeaderStream(h0: string, h1: string, f0: string, f1: string, other: string)
    requires NoDelimiter(h0) && NoDelimiter(h1) && NoDelimiter(f0) && NoDelimiter(f1)
    requires h0 != h1 && other != h0 && other != h1
    ensures var r := WithHeaders(PlainContents([h0 + ";" + h1, f0 + ";" + f1]));
            && r.Ok?
            && r.value.headers == [h0, h1]
            && r.value.content == [CsvLine([f0, f1], [h0, h1])]
            && r.value.content[0].Get(0) == Some(f0)
            && r.value.content[0].GetByName(h0) == Some(f0)
            && r.value.content[0].GetByName(h1) == Some(f1)
            && r.value.content[0].GetByName(other) == None
  {
    var lines := [h0 + ";" + h1, f0 + ";" + f1];
    var headers := [h0, h1];
    SplitTwoFields(h0, h1);
    SplitTwoFields(f0, f1);
    HeaderStream(lines);
    assert headers[..1] == [h0];
    assert IsFirstIndex(headers, h0, 0);
    assert IsFirstIndex(headers, h1, 1);
  }

  /** The two-line example: headers "Hello;World", one data row
      "Foo;Bar", looked up by position and by name. */
  lemma HelloWorldExample()
    ensures var r := WithHeaders(PlainContents(["Hello;World", "Foo;Bar"]));
            && r.Ok?
            && r.value.headers == ["Hello", "World"]
            && r.value.content == [CsvLine(["Foo", "Bar"], ["Hello", "World"])]
            && r.value.content[0].GetByName("Hello") == Some("Foo")
            && r.value.content[0].GetByName("Foo") == None
  {
    assert "Hello" != "World" && "Foo" != "Hello" && "Foo" != "World" by {
      assert "Hello"[0] != "World"[0] && "Foo"[0] != "Hello"[0] && "Foo"[0] != "World"[0];
    }
    TwoLineHeaderStream("Hello", "World", "Foo", "Bar", "Foo");
    assert "Hello" + ";" + "World" == "Hello;World";
    assert "Foo" + ";" + "Bar" == "Foo;Bar";
  }

  // ---------------------------------------------------------------------
  // The line cursor
  // ---------------------------------------------------------------------

  /** `CsvIterator`: a cursor over the lines of an opened source that keeps
      one line of lookahead. `reader` holds the lines the underlying reader
      has not yet delivered; `lines` and `pos` are the abstract view (all
      lines, and the index of the lookahead). */
  class CsvIterator {
    ghost const lines: seq<string>
    ghost var pos: nat
    var reader: seq<string>
    var line: Option<string>

    ghost predicate Valid()
      reads this
    {
      && pos <= |lines|
      && (pos < |lines| ==> line == Some(lines[pos]) && reader == lines[pos + 1..])
      && (pos == |lines| ==> line == None && reader == [])
    }

    /** Reads the first line into the lookahead. */
    constructor (input: seq<string>)
      ensures Valid() && lines == input && pos == 0
    {
      lines := input;
      pos := 0;
      reader := input;
      new;
      line := ReadLine();
    }

    /** `readLine()`: the next undelivered line, or `null` at the end. */
    method ReadLine() returns (next: Option<string>)
      modifies this`reader
      ensures old(reader) == [] ==> next == None && reader == []
      ensures old(reader) != [] ==> next == Some(old(reader)[0]) && reader == old(reader)[1..]
    {
      if reader == [] {
        next := None;
      } else {
        next := Some(reader[0]);
        reader := reader[1..];
      }
    }

    /** `hasNext()`: the lookahead holds a line. */
    function HasNext(): (b: bool)
      reads this
      requires Valid()
      ensures b <==> pos < |lines|
    {
      line.Some?
    }

    /** `next()`: the lookahead split on `;`, with no headers, and the
        lookahead moves one line on; fails once the lines are exhausted. */
    method Next() returns (r: Result<CsvLine>)
      requires Valid()
      modifies this
      ensures Valid()
      ensures old(pos) < |lines| ==> r == Ok(CsvLine(Split(lines[old(pos)]), [])) && pos == old(pos) + 1
      ensures old(pos) == |lines| ==> r == Err(NoSuchElement) && pos == old(pos)
    {
      if HasNext() {
        r := Ok(CsvLine(Split(line.value), []));
        pos := pos + 1;
        line := ReadLine();
      } else {
        r := Err(NoSuchElement);
      }
    }
  }

  /** Iterating the `content` of a CsvFile whose source delivers `input`
      to the end: exactly the plain records of the input, in order. */
  method Collect(input: seq<string>) returns (records: seq<CsvLine>)
    ensures records == Records(input)
  {
    var it := new CsvIterator(input);
    records := [];
    while it.HasNext()
      invariant it.Valid() && it.lines == input
      invariant records == Records(input[..it.pos])
      decreases |input| - it.pos
    {
      var r := it.Next();
      assert input[..it.pos][..it.pos - 1] == input[..it.pos - 1];
      records := records + [r.value];
    }
    assert input[..it.pos] == input;
  }
}
