/**
 * Reading what was printed gives the manifest back, unless a number in it is so large or so small that
 * it is written with an exponent, which the reader does not know.
 */
module ManifestRoundTrip {
  import opened Optional
  import opened Text
  import opened Decimals
  import opened UpdateManifest

  const RESERVED: set<string> := {"version", "releaseDate", "path", "sha512"}

  /** Text printed bare: not empty, nothing to trim, on one line, not between single quotes. */
  predicate Bare(s: string) {
    s != "" && Trimmed(s) && OneLine(s) && !StartsAndEndsQuoted(s)
  }

  predicate PrintableScalar(v: Scalar) {
    match v
    case Str(text) => OneLine(text)
    case Num(_) => true
    case Flag(_) => true
  }

  predicate Printable(m: Manifest) {
    && m.version != "" && OneLine(m.version) && m.releaseDate != "" && OneLine(m.releaseDate)
    && m.files != []
    && (forall k :: 0 <= k < |m.files| ==> Bare(m.files[k].url) && Bare(m.files[k].sha512))
    && (forall key :: key in m.extras ==> IsKey(key) && key !in RESERVED && PrintableScalar(m.extras[key]))
  }

  /** A number written with an exponent is read as the text it was written as. */
  function Reread(v: Scalar): Scalar {
    if v.Num? && !Positional(v.number) then Str(Spelled(v.number)) else v
  }

  function RereadAll(extras: map<string, Scalar>): map<string, Scalar> {
    map key | key in extras :: Reread(extras[key])
  }

  predicate PlainSize(f: File) {
    Positional(Fraction(f.size, 0))
  }

  /** No number in it is written with an exponent. */
  predicate WrittenPlainly(m: Manifest) {
    && (forall k :: 0 <= k < |m.files| ==> PlainSize(m.files[k]))
    && (forall key :: key in m.extras && m.extras[key].Num? ==> Positional(m.extras[key].number))
  }

  // ---- values ----

  lemma {:induction false} UnescapeOfEscape(s: string)
    ensures Unescape(Escape(s)) == s
  {
    if s != "" {
      UnescapeOfEscape(s[1..]);
      if s[0] == '\'' {
        assert Escape(s)[2..] == Escape(s[1..]);
      } else {
        assert Escape(s)[1..] == Escape(s[1..]);
      }
      assert s == [s[0]] + s[1..];
    }
  }

  lemma {:induction false} EscapeOneLine(s: string)
    requires OneLine(s)
    ensures OneLine(Escape(s))
  {
    if s != "" {
      assert OneLine(s[1..]);
      EscapeOneLine(s[1..]);
    }
  }

  /** A value text that the reader takes over as it stands. */
  predicate Solid(s: string) {
    s != "" && Trimmed(s) && OneLine(s)
  }

  lemma QuoteReads(s: string)
    requires OneLine(s)
    ensures Solid(Quote(s)) && ParseScalar(Quote(s)) == Str(s)
  {
    var q := Quote(s);
    EscapeOneLine(s);
    UnescapeOfEscape(s);
    assert Trimmed(q);
    TrimmedStays(q);
    assert q[1..|q| - 1] == Escape(s);
  }

  lemma NumberIsSolid(d: Decimal)
    ensures Solid(Spelled(d)) && Trim(Spelled(d)) == Spelled(d)
    ensures !StartsAndEndsQuoted(Spelled(d)) && Spelled(d) != "true" && Spelled(d) != "false"
  {
    SpelledChars(d);
    hide Spelled;
    var s := Spelled(d);
    assert IsNumberChar(s[0]) && IsNumberChar(s[|s| - 1]);
    assert Trimmed(s) && OneLine(s);
    TrimmedStays(s);
  }

  lemma NumberReads(d: Decimal)
    ensures Solid(Spelled(d)) && ParseScalar(Spelled(d)) == Reread(Num(d))
  {
    NumberIsSolid(d);
    SpelledReadsBackWhen(d);
    hide Spelled, IsNumeral, ReadNumeral, Positional, Trim, Solid;
  }

  /** Every printed scalar is read as itself, but a number that needed an exponent, which is read as a text. */
  lemma ScalarReads(v: Scalar)
    requires PrintableScalar(v)
    ensures Solid(SerializeScalar(v)) && ParseScalar(SerializeScalar(v)) == Reread(v)
    ensures Reread(v) == v <==> (v.Num? ==> Positional(v.number))
  {
    match v
    case Str(text) => QuoteReads(text);
    case Num(d) => NumberReads(d);
    case Flag(b) =>
      TrimmedStays("true");
      TrimmedStays("false");
  }

  // ---- lines ----

  lemma FieldReads(name: string, value: string)
    requires Solid(value) && name != ""
    ensures
      var line := name + " " + value;
      TrimEnd(line) == line && Field(line, name) == Some(value)
  {
    var line := name + " " + value;
    assert line[|line| - 1] == value[|value| - 1];
    assert line[|name|..] == " " + value;
    assert (" " + value)[1..] == value;
    assert IsSpace(' ') && TrimStart(" " + value) == TrimStart(value) == value;
    assert name <= line;
  }

  lemma OtherFieldsMiss(line: string, name: string, k: nat)
    requires k < |line| && k < |name| && line[k] != name[k]
    ensures Field(line, name).None?
  {
  }

  lemma ColonAfterKey(key: string, rest: string)
    requires IsKey(key)
    ensures ColonIndex(key + ":" + rest) == |key|
  {
    var line := key + ":" + rest;
    var i := ColonIndex(line);
    assert forall k :: 0 <= k < |key| ==> line[k] == key[k] && line[k] != ':';
    assert forall k :: 0 <= k < i ==> line[..i][k] == line[k];
    assert line[|key|] == ':';
  }

  function ReadEntryOn(closed: Result<Reading>, key: string, text: string, number: nat): Result<Reading> {
    match closed
    case Err(e) => Err(e)
    case Ok(r) => ReadEntry(r.(inFiles := false), key, text, number)
  }

  /** An entry line is read as the entry. */
  lemma EntryReads(r: Reading, key: string, text: string, number: nat)
    requires IsKey(key) && Solid(text)
    ensures ReadLine(r, key + ": " + text, number) ==
      ReadEntryOn(if r.inFiles then Finalize(r, number) else Ok(r), key, text, number)
  {
    var line := key + ": " + text;
    EntryMisses(key, text);
    assert line == key + ":" + (" " + text);
    ColonAfterKey(key, " " + text);
    assert line[..|key|] == key;
    FallsThrough(r, line, number);
    EntryAtTopLevel(key, text);
    hide Field, ColonIndex, IsKey, TrimEnd, TopLevel, ReadLine, ReadEntry, Finalize;
  }

  /** A line that is none of the fixed ones. */
  lemma FallsThrough(r: Reading, line: string, number: nat)
    requires TrimEnd(line) == line && line != "" && line != "files:"
    requires Field(line, URL_FIELD).None? && Field(line, SHA_FIELD).None? && Field(line, SIZE_FIELD).None?
    ensures ReadLine(r, line, number) == ReadTopLevel(r, line, number)
  {
    hide ReadTopLevel;
  }

  lemma EntryMisses(key: string, text: string)
    requires IsKey(key) && Solid(text)
    ensures var line := key + ": " + text;
      && TrimEnd(line) == line && line != "" && line != "files:"
      && Field(line, key + ":") == Some(text)
      && Field(line, URL_FIELD).None? && Field(line, SHA_FIELD).None? && Field(line, SIZE_FIELD).None?
  {
    var line := key + ": " + text;
    assert line == (key + ":") + " " + text;
    FieldReads(key + ":", text);
    assert line[0] == key[0];
    OtherFieldsMiss(line, URL_FIELD, 0);
    OtherFieldsMiss(line, SHA_FIELD, 0);
    OtherFieldsMiss(line, SIZE_FIELD, 0);
    assert ' ' !in "files:" && line[|key| + 1] == ' ';
  }

  lemma EntryAtTopLevel(key: string, text: string)
    requires IsKey(key) && ColonIndex(key + ": " + text) == |key| && Field(key + ": " + text, key + ":") == Some(text)
    ensures TopLevel(key + ": " + text) == Some((key, text))
  {
    var line := key + ": " + text;
    assert line[..|key|] == key && line[..|key| + 1] == key + ":";
    hide ColonIndex, Field;
  }

  // ---- whole manifests ----

  /** The file entry being read, if any, has all its fields, and was begun by a file list. */
  predicate Closable(r: Reading) {
    r.current.Some? ==> r.inFiles && r.current.value.sha512.Some? && r.current.value.size.Some?
  }

  /** What the reading amounts to once the file being read is closed. */
  function Close(r: Reading): Reading
    requires Closable(r)
  {
    Finalize(r, 0).value.(inFiles := false)
  }

  function ReadLinesOn(before: Result<Reading>, lines: seq<string>, number: nat): Result<Reading> {
    match before
    case Err(e) => Err(e)
    case Ok(r) => ReadLines(r, lines, number)
  }

  lemma {:induction false} ReadLinesAppend(r: Reading, a: seq<string>, b: seq<string>, number: nat)
    ensures ReadLines(r, a + b, number) == ReadLinesOn(ReadLines(r, a, number), b, number + |a|)
    decreases |a|
  {
    hide ReadLine;
    if a == [] {
      assert a + b == b;
    } else {
      assert (a + b)[0] == a[0] && (a + b)[1..] == a[1..] + b;
      match ReadLine(r, a[0], number)
      case Err(_) =>
      case Ok(next) => ReadLinesAppend(next, a[1..], b, number + 1);
    }
  }

  lemma ReadCons(r: Reading, line: string, rest: seq<string>, number: nat, next: Reading)
    requires ReadLine(r, line, number) == Ok(next)
    ensures ReadLines(r, [line] + rest, number) == ReadLines(next, rest, number + 1)
  {
    hide ReadLine;
    assert ([line] + rest)[1..] == rest;
  }

  lemma BareStrips(s: string)
    requires Bare(s)
    ensures Solid(s) && StripSingleQuotes(Trim(s)) == s
  {
    TrimmedStays(s);
  }

  lemma UrlLineReads(r: Reading, f: File, number: nat)
    requires Closable(r) && Bare(f.url)
    ensures ReadLine(r, FileLines(f)[0], number) ==
            Ok(Close(r).(current := Some(PartialFile(f.url, None, None)), inFiles := true))
  {
    BareStrips(f.url);
    FieldReads(URL_FIELD, f.url);
  }

  lemma ShaLineReads(r: Reading, f: File, number: nat)
    requires Bare(f.sha512) && r.current.Some?
    ensures ReadLine(r, FileLines(f)[1], number) == Ok(r.(current := Some(r.current.value.(sha512 := Some(f.sha512)))))
  {
    BareStrips(f.sha512);
    FieldReads(SHA_FIELD, f.sha512);
    ShaFieldMisses(f.sha512);
    hide Bare, Solid, TrimEnd, Field, StripSingleQuotes, Trim, Spelled;
  }

  lemma ShaFieldMisses(sha512: string)
    ensures var line := SHA_FIELD + " " + sha512;
      line != "" && Field(line, URL_FIELD).None?
  {
    OtherFieldsMiss(SHA_FIELD + " " + sha512, URL_FIELD, 2);
  }

  lemma SizeText(f: File)
    ensures var size := Spelled(Fraction(f.size, 0));
      && (PlainSize(f) ==> AllDigits(size) && NumeralValue(size) == f.size)
      && (!PlainSize(f) ==> !AllDigits(size))
  {
    var size := Spelled(Fraction(f.size, 0));
    if PlainSize(f) {
      NumeralRoundTrip(f.size);
    } else {
      SpelledReadsBackWhen(Fraction(f.size, 0));
      SpelledChars(Fraction(f.size, 0));
      hide Spelled, IsNumeral, Stated, NumeralValue, Positional;
      if AllDigits(size) {
        WholeStates(size);
      }
    }
  }

  lemma SizeFieldMisses(size: string)
    ensures var line := SIZE_FIELD + " " + size;
      line != "" && line != "files:" && Field(line, URL_FIELD).None? && Field(line, SHA_FIELD).None?
  {
    var line := SIZE_FIELD + " " + size;
    assert line[0] == ' ';
    OtherFieldsMiss(line, URL_FIELD, 2);
    OtherFieldsMiss(line, SHA_FIELD, 5);
  }

  lemma SizeLineIsRead(f: File)
    ensures var line, size := FileLines(f)[2], Spelled(Fraction(f.size, 0));
      && TrimEnd(line) == line && line != "" && line != "files:" && Field(line, SIZE_FIELD) == Some(size)
      && Field(line, URL_FIELD).None? && Field(line, SHA_FIELD).None?
  {
    NumberIsSolid(Fraction(f.size, 0));
    SizeFieldMisses(Spelled(Fraction(f.size, 0)));
    hide Spelled, Field, TrimEnd, Solid;
    FieldReads(SIZE_FIELD, Spelled(Fraction(f.size, 0)));
  }

  lemma SizeLineReads(r: Reading, f: File, number: nat)
    requires r.current.Some? && PlainSize(f)
    ensures ReadLine(r, FileLines(f)[2], number) == Ok(r.(current := Some(r.current.value.(size := Some(f.size)))))
  {
    SizeText(f);
    SizeLineIsRead(f);
    hide FileLines, Field, TrimEnd, NumeralValue, AllDigits, Spelled;
  }

  /** A size with an exponent is no size line, so the file stays incomplete. */
  lemma SizeLineFails(r: Reading, f: File, number: nat)
    requires r.current.Some? && r.current.value.size.None? && r.inFiles && !PlainSize(f)
    ensures ReadLine(r, FileLines(f)[2], number) == Err(IncompleteFile(number))
  {
    SizeText(f);
    SizeLineIsRead(f);
    hide FileLines, Field, TrimEnd, NumeralValue, AllDigits, Spelled, TopLevel;
  }

  /** Three lines are read as one file. */
  lemma FileReads(r: Reading, f: File, number: nat)
    requires Closable(r) && Bare(f.url) && Bare(f.sha512) && PlainSize(f)
    ensures ReadLines(r, FileLines(f), number) ==
            Ok(Close(r).(current := Some(PartialFile(f.url, Some(f.sha512), Some(f.size))), inFiles := true))
  {
    UrlLineReads(r, f, number);
    var r1 := Close(r).(current := Some(PartialFile(f.url, None, None)), inFiles := true);
    ShaLineReads(r1, f, number + 1);
    var r2 := r1.(current := Some(PartialFile(f.url, Some(f.sha512), None)));
    SizeLineReads(r2, f, number + 2);
    var r3 := r2.(current := Some(PartialFile(f.url, Some(f.sha512), Some(f.size))));
    hide ReadLine, FileLines, PlainSize;
    ReadCons(r, FileLines(f)[0], FileLines(f)[1..], number, r1);
    ReadCons(r1, FileLines(f)[1], [FileLines(f)[2]], number + 1, r2);
    ReadCons(r2, FileLines(f)[2], [], number + 2, r3);
    assert FileLines(f) == [FileLines(f)[0]] + FileLines(f)[1..];
    assert FileLines(f)[1..] == [FileLines(f)[1]] + [FileLines(f)[2]];
    assert [FileLines(f)[2]] == [FileLines(f)[2]] + [];
  }

  lemma FileFails(r: Reading, f: File, number: nat)
    requires Closable(r) && Bare(f.url) && Bare(f.sha512) && !PlainSize(f)
    ensures ReadLines(r, FileLines(f), number).Err?
  {
    UrlLineReads(r, f, number);
    var r1 := Close(r).(current := Some(PartialFile(f.url, None, None)), inFiles := true);
    ShaLineReads(r1, f, number + 1);
    var r2 := r1.(current := Some(PartialFile(f.url, Some(f.sha512), None)));
    SizeLineFails(r2, f, number + 2);
    hide ReadLine, FileLines, PlainSize, Bare, Closable, Close;
    ReadCons(r, FileLines(f)[0], FileLines(f)[1..], number, r1);
    ReadCons(r1, FileLines(f)[1], [FileLines(f)[2]], number + 1, r2);
    assert FileLines(f) == [FileLines(f)[0]] + FileLines(f)[1..];
    assert FileLines(f)[1..] == [FileLines(f)[1]] + [FileLines(f)[2]];
  }

  /** One size with an exponent, and the list of files is refused. */
  lemma {:induction false} FilesFail(r: Reading, files: seq<File>, number: nat)
    requires Closable(r) && exists k :: 0 <= k < |files| && !PlainSize(files[k])
    requires forall k :: 0 <= k < |files| ==> Bare(files[k].url) && Bare(files[k].sha512)
    ensures ReadLines(r, FilesLines(files), number).Err?
    decreases |files|
  {
    hide ReadLine, ReadLines, FileLines, PlainSize;
    if PlainSize(files[0]) {
      var k :| 0 <= k < |files| && !PlainSize(files[k]);
      assert files[1..][k - 1] == files[k];
      FileReads(r, files[0], number);
      var file := PartialFile(files[0].url, Some(files[0].sha512), Some(files[0].size));
      FilesFail(Close(r).(current := Some(file), inFiles := true), files[1..], number + |FileLines(files[0])|);
    } else {
      FileFails(r, files[0], number);
    }
    ReadLinesAppend(r, FileLines(files[0]), FilesLines(files[1..]), number);
  }

  lemma {:induction false} FilesRead(r: Reading, files: seq<File>, number: nat) returns (next: Reading)
    requires Closable(r)
    requires forall k :: 0 <= k < |files| ==> Bare(files[k].url) && Bare(files[k].sha512) && PlainSize(files[k])
    ensures ReadLines(r, FilesLines(files), number) == Ok(next)
    ensures Closable(next) && Close(next) == Close(r).(files := Close(r).files + files)
    decreases |files|
  {
    hide ReadLine, PlainSize, Spelled;
    if files == [] {
      next := r;
    } else {
      FileReads(r, files[0], number);
      var file := PartialFile(files[0].url, Some(files[0].sha512), Some(files[0].size));
      var first := Close(r).(current := Some(file), inFiles := true);
      next := FilesRead(first, files[1..], number + 3);
      ReadLinesAppend(r, FileLines(files[0]), FilesLines(files[1..]), number);
      assert Close(first).files + files[1..] == Close(r).files + files;
    }
  }

  /** The entries of the listed keys. */
  function Listed(extras: map<string, Scalar>, keys: seq<string>): map<string, Scalar> {
    map key | key in keys && key in extras :: extras[key]
  }

  lemma {:induction false} ExtrasRead(r: Reading, extras: map<string, Scalar>, keys: seq<string>, number: nat)
      returns (next: Reading)
    requires Closable(r)
    requires forall k :: 0 <= k < |keys| ==>
      keys[k] in extras && IsKey(keys[k]) && keys[k] !in RESERVED && PrintableScalar(extras[keys[k]])
    ensures ReadLines(r, ExtraLines(extras, keys), number) == Ok(next)
    ensures Closable(next) && Close(next) == Close(r).(extras := r.extras + Listed(RereadAll(extras), keys))
    decreases |keys|
  {
    hide IsKey;
    hide PrintableScalar;
    hide SerializeScalar;
    hide ReadLine;
    hide Reread;
    if keys == [] {
      next := r;
      assert r.extras + Listed(RereadAll(extras), keys) == r.extras;
    } else {
      var key, value := keys[0], extras[keys[0]];
      var first := Close(r).(extras := r.extras[key := Reread(value)]);
      ExtraReads(r, key, value, number);
      ClosedExtra(r, key, Reread(value));
      next := ExtrasRead(first, extras, keys[1..], number + 1);
      ReadCons(r, key + ": " + SerializeScalar(value), ExtraLines(extras, keys[1..]), number, first);
      ListedFirst(r.extras, RereadAll(extras), keys);
    }
  }

  lemma ClosedExtra(r: Reading, key: string, value: Scalar)
    requires Closable(r)
    ensures
      var first := Close(r).(extras := r.extras[key := value]);
      Closable(first) && Close(first) == first && first.extras == r.extras[key := value]
  {
  }

  lemma ListedFirst(before: map<string, Scalar>, extras: map<string, Scalar>, keys: seq<string>)
    requires keys != [] && keys[0] in extras
    ensures before[keys[0] := extras[keys[0]]] + Listed(extras, keys[1..]) == before + Listed(extras, keys)
  {
    assert keys == [keys[0]] + keys[1..];
  }

  lemma ExtraReads(r: Reading, key: string, value: Scalar, number: nat)
    requires Closable(r) && IsKey(key) && key !in RESERVED && PrintableScalar(value)
    ensures ReadLine(r, key + ": " + SerializeScalar(value), number) ==
      Ok(Close(r).(extras := r.extras[key := Reread(value)]))
  {
    ScalarReads(value);
    EntryReads(r, key, SerializeScalar(value), number);
    hide Reread;
    hide ReadLine;
    hide SerializeScalar;
    hide ParseScalar;
    hide PrintableScalar;
  }

  lemma VersionIsKey()
    ensures IsKey("version")
  {
  }

  lemma VersionReads(m: Manifest)
    requires Printable(m)
    ensures ReadLine(START, "version: " + Quote(m.version), 1) == Ok(START.(version := Some(m.version)))
  {
    VersionIsKey();
    hide ReadLine, Quote, ParseScalar, IsKey;
    QuoteReads(m.version);
    EntryReads(START, "version", Quote(m.version), 1);
    assert "version" + ": " + Quote(m.version) == "version: " + Quote(m.version);
  }

  lemma FilesLineReads(r: Reading, number: nat)
    ensures ReadLine(r, "files:", number) == Ok(r.(inFiles := true))
  {
    var line := "files:";
    OtherFieldsMiss(line, URL_FIELD, 0);
    OtherFieldsMiss(line, SHA_FIELD, 0);
    OtherFieldsMiss(line, SIZE_FIELD, 0);
    assert TrimEnd(line) == line;
  }

  lemma HeaderReads(m: Manifest)
    requires Printable(m)
    ensures ReadLines(START, ["version: " + Quote(m.version), "files:"], 1)
         == Ok(START.(version := Some(m.version), inFiles := true))
  {
    hide ReadLine;
    hide Quote;
    var versioned := START.(version := Some(m.version));
    VersionReads(m);
    FilesLineReads(versioned, 2);
    ReadCons(START, "version: " + Quote(m.version), ["files:"], 1, versioned);
    ReadCons(versioned, "files:", [], 2, versioned.(inFiles := true));
    assert ["files:"] + [] == ["files:"];
    assert ["version: " + Quote(m.version), "files:"] == ["version: " + Quote(m.version)] + ["files:"];
  }

  lemma DateIsKey()
    ensures IsKey("releaseDate")
  {
  }

  lemma DateReads(r: Reading, m: Manifest, number: nat)
    requires Closable(r) && Printable(m)
    ensures ReadLine(r, "releaseDate: " + Quote(m.releaseDate), number) ==
      Ok(Close(r).(releaseDate := Some(m.releaseDate)))
  {
    DateIsKey();
    hide ReadLine;
    hide Quote;
    hide ParseScalar;
    hide IsKey;
    QuoteReads(m.releaseDate);
    EntryReads(r, "releaseDate", Quote(m.releaseDate), number);
    assert "releaseDate" + ": " + Quote(m.releaseDate) == "releaseDate: " + Quote(m.releaseDate);
  }

  lemma FooterReads(r: Reading, m: Manifest, number: nat) returns (next: Reading)
    requires Closable(r) && Printable(m)
    ensures ReadLines(r, ["releaseDate: " + Quote(m.releaseDate), ""], number) == Ok(next)
    ensures Closable(next) && Close(next) == Close(r).(releaseDate := Some(m.releaseDate))
  {
    next := Close(r).(releaseDate := Some(m.releaseDate));
    assert ReadLine(next, "", number + 1) == Ok(next);
    DateReads(r, m, number);
    hide ReadLine;
    hide Quote;
    ReadCons(r, "releaseDate: " + Quote(m.releaseDate), [""], number, next);
    ReadCons(next, "", [], number + 1, next);
    assert [""] + [] == [""];
    assert ["releaseDate: " + Quote(m.releaseDate), ""] == ["releaseDate: " + Quote(m.releaseDate)] + [""];
  }

  lemma FileLinesAreLines(f: File)
    requires Bare(f.url) && Bare(f.sha512)
    ensures forall k :: 0 <= k < |FileLines(f)| ==> OneLine(FileLines(f)[k])
  {
    NumberIsSolid(Fraction(f.size, 0));
    FieldNamesAreLines();
    hide Spelled, OneLine;
    var size := Spelled(Fraction(f.size, 0));
    assert FileLines(f) == [URL_FIELD + " " + f.url, SHA_FIELD + " " + f.sha512, SIZE_FIELD + " " + size];
    hide FileLines;
    OneLineAppend(URL_FIELD + " ", f.url);
    OneLineAppend(SHA_FIELD + " ", f.sha512);
    OneLineAppend(SIZE_FIELD + " ", size);
  }

  lemma FieldNamesAreLines()
    ensures OneLine(URL_FIELD + " ") && OneLine(SHA_FIELD + " ") && OneLine(SIZE_FIELD + " ")
  {
  }

  lemma {:induction false} FilesLinesAreLines(files: seq<File>)
    requires forall k :: 0 <= k < |files| ==> Bare(files[k].url) && Bare(files[k].sha512)
    ensures forall k :: 0 <= k < |FilesLines(files)| ==> OneLine(FilesLines(files)[k])
  {
    if files != [] {
      FilesLinesAreLines(files[1..]);
      FileLinesAreLines(files[0]);
      hide FileLines, OneLine, Bare;
    }
  }

  lemma {:induction false} ExtraLinesAreLines(extras: map<string, Scalar>, keys: seq<string>)
    requires forall k :: 0 <= k < |keys| ==> keys[k] in extras && IsKey(keys[k]) && PrintableScalar(extras[keys[k]])
    ensures forall k :: 0 <= k < |ExtraLines(extras, keys)| ==> OneLine(ExtraLines(extras, keys)[k])
  {
    if keys != [] {
      ExtraLinesAreLines(extras, keys[1..]);
      ScalarReads(extras[keys[0]]);
    }
  }

  lemma FixedLinesAreLines()
    ensures OneLine("files:") && OneLine("") && OneLine("version: ") && OneLine("releaseDate: ")
  {
  }

  lemma OneLineAppend(a: string, b: string)
    requires OneLine(a) && OneLine(b)
    ensures OneLine(a + b)
  {
  }

  ghost predicate OneLines(lines: seq<string>) {
    forall k :: 0 <= k < |lines| ==> OneLine(lines[k])
  }

  lemma OneLinesConcat(a: seq<string>, b: seq<string>)
    requires OneLines(a) && OneLines(b)
    ensures OneLines(a + b)
  {
    hide OneLine;
  }

  lemma QuotedLine(name: string, text: string)
    requires OneLine(name) && OneLine(text)
    ensures OneLine(name + Quote(text))
  {
    QuoteReads(text);
    OneLineAppend(name, Quote(text));
  }

  lemma EveryLineIsOne(m: Manifest, keys: seq<string>)
    requires Printable(m) && Lists(keys, m.extras)
    ensures OneLines(Lines(m, keys))
  {
    FilesLinesAreLines(m.files);
    ExtraLinesAreLines(m.extras, keys);
    FixedLinesAreLines();
    hide Quote, FilesLines, ExtraLines, OneLine;
    QuotedLine("version: ", m.version);
    QuotedLine("releaseDate: ", m.releaseDate);
    var header, footer := ["version: " + Quote(m.version), "files:"], ["releaseDate: " + Quote(m.releaseDate), ""];
    assert OneLines(header) && OneLines(footer);
    assert OneLines(FilesLines(m.files)) && OneLines(ExtraLines(m.extras, keys));
    hide OneLines, Printable, Lists;
    OneLinesConcat(header, FilesLines(m.files));
    OneLinesConcat(header + FilesLines(m.files), ExtraLines(m.extras, keys));
    OneLinesConcat(header + FilesLines(m.files) + ExtraLines(m.extras, keys), footer);
  }

  lemma LinesAreLines(m: Manifest, keys: seq<string>)
    requires Printable(m) && Lists(keys, m.extras)
    ensures SplitLines(Serialize(m, keys)) == Lines(m, keys)
  {
    hide SplitLines, Join, OneLine, Printable, Lists;
    EveryLineIsOne(m, keys);
    SplitLinesOfJoin(Lines(m, keys));
  }

  /** The printed lines, read from the start, amount to the manifest with its scalars as they are read. */
  lemma LinesRead(m: Manifest, keys: seq<string>) returns (r: Reading)
    requires Printable(m) && Lists(keys, m.extras) && forall k :: 0 <= k < |m.files| ==> PlainSize(m.files[k])
    ensures ReadLines(START, Lines(m, keys), 1) == Ok(r) && Closable(r)
    ensures Close(r) == Reading(m.files, RereadAll(m.extras), Some(m.version), Some(m.releaseDate), false, None)
  {
    hide ReadLine, ReadLines, Quote, FilesLines, ExtraLines, IsKey, PrintableScalar, PlainSize, Reread;
    var header, footer := ["version: " + Quote(m.version), "files:"], ["releaseDate: " + Quote(m.releaseDate), ""];
    var files, extras := FilesLines(m.files), ExtraLines(m.extras, keys);
    HeaderReads(m);
    var r0 := START.(version := Some(m.version), inFiles := true);
    var r1 := FilesRead(r0, m.files, 3);
    var r2 := ExtrasRead(r1, m.extras, keys, 3 + |files|);
    r := FooterReads(r2, m, 3 + |files| + |extras|);
    ReadLinesAppend(r1, extras, footer, 3 + |files|);
    ReadLinesAppend(r0, files, extras + footer, 3);
    ReadLinesAppend(START, header, files + (extras + footer), 1);
    assert Lines(m, keys) == header + (files + (extras + footer));
    ExtrasOfClosed(r1, m, keys);
  }

  lemma ExtrasOfClosed(r: Reading, m: Manifest, keys: seq<string>)
    requires Closable(r) && Close(r).extras == map[] && Lists(keys, m.extras)
    ensures r.extras + Listed(RereadAll(m.extras), keys) == RereadAll(m.extras)
  {
    hide Reread;
  }

  lemma LinesFail(m: Manifest, keys: seq<string>)
    requires Printable(m) && Lists(keys, m.extras) && exists k :: 0 <= k < |m.files| && !PlainSize(m.files[k])
    ensures ReadLines(START, Lines(m, keys), 1).Err?
  {
    hide ReadLine, ReadLines, Quote, FilesLines, ExtraLines, IsKey, PrintableScalar, PlainSize;
    var header, footer := ["version: " + Quote(m.version), "files:"], ["releaseDate: " + Quote(m.releaseDate), ""];
    var files, extras := FilesLines(m.files), ExtraLines(m.extras, keys);
    HeaderReads(m);
    var r0 := START.(version := Some(m.version), inFiles := true);
    FilesFail(r0, m.files, 3);
    ReadLinesAppend(r0, files, extras + footer, 3);
    ReadLinesAppend(START, header, files + (extras + footer), 1);
    assert Lines(m, keys) == header + (files + (extras + footer));
  }

  /** What every printable manifest, its keys printed in any order, is read as. */
  lemma PrintedReads(m: Manifest, keys: seq<string>)
    requires Printable(m) && Lists(keys, m.extras)
    ensures
      if forall k :: 0 <= k < |m.files| ==> PlainSize(m.files[k])
      then Parse(Serialize(m, keys)) == Ok(m.(extras := RereadAll(m.extras)))
      else Parse(Serialize(m, keys)).Err?
  {
    hide ReadLines, Serialize, Lines, PlainSize, Reread, RereadAll;
    LinesAreLines(m, keys);
    if forall k :: 0 <= k < |m.files| ==> PlainSize(m.files[k]) {
      var r := LinesRead(m, keys);
      assert Finalize(r, |Lines(m, keys)|).value.(inFiles := false) == Close(r);
    } else {
      LinesFail(m, keys);
    }
  }

  lemma RereadAllWhen(extras: map<string, Scalar>)
    ensures RereadAll(extras) == extras <==>
      forall key :: key in extras && extras[key].Num? ==> Positional(extras[key].number)
  {
    hide Spelled, Positional;
    var read := RereadAll(extras);
    forall key | key in extras
      ensures read[key] == extras[key] <==> (extras[key].Num? ==> Positional(extras[key].number))
    {
    }
    hide RereadAll;
    if forall key :: key in extras && extras[key].Num? ==> Positional(extras[key].number) {
      assert read == extras;
    }
  }

  /** A printable manifest is read back from its text if and only if no number in it is written with an exponent. */
  lemma RoundTrip(m: Manifest, keys: seq<string>)
    requires Printable(m) && Lists(keys, m.extras)
    ensures Parse(Serialize(m, keys)) == Ok(m) <==> WrittenPlainly(m)
  {
    PrintedReads(m, keys);
    RereadAllWhen(m.extras);
    hide Parse, Serialize, Positional, Printable, Lists, RereadAll, PlainSize;
  }

  /** It happens: an extra of one ten-millionth is read, printed with an exponent, and read again as a text. */
  lemma SmallNumberBecomesText()
    ensures IsNumeral("0.0000001") && ReadNumeral("0.0000001") == Fraction(1, 7)
    ensures Spelled(Fraction(1, 7)) == "1e-7" && ParseScalar("1e-7") == Str("1e-7")
  {
    SmallNumberTexts();
    PositionalReads(1, 7);
    NumberReads(Fraction(1, 7));
    hide Spelled, PositionalText, Positional, ParseScalar, IsNumeral, Stated;
    assert Reduced(Fraction(1, 7)) == Fraction(1, 7);
  }
}
