/** The electron-updater manifest: a reader of its YAML subset and the printer it undoes. */
module UpdateManifest {
  import opened Optional
  import opened Text
  import opened Decimals

  datatype File = File(url: string, sha512: string, size: nat)

  datatype Scalar = Str(text: string) | Num(number: Decimal) | Flag(b: bool)

  datatype Manifest = Manifest(version: string, releaseDate: string, files: seq<File>, extras: map<string, Scalar>)

  datatype Error =
    | IncompleteFile(line: nat) | ShaWithoutFile(line: nat) | SizeWithoutFile(line: nat) | UnsupportedLine(line: nat)
    | VersionNotString(line: nat) | DateNotString(line: nat) | MissingVersion | MissingDate | MissingFiles

  datatype Result<+T> = Ok(value: T) | Err(error: Error)

  // ---- quoting ----

  function Escape(s: string): string {
    if s == "" then "" else (if s[0] == '\'' then "''" else [s[0]]) + Escape(s[1..])
  }

  function Unescape(s: string): string {
    if s == "" then ""
    else if |s| >= 2 && s[0] == '\'' && s[1] == '\'' then "'" + Unescape(s[2..])
    else [s[0]] + Unescape(s[1..])
  }

  function Quote(s: string): string {
    "'" + Escape(s) + "'"
  }

  predicate StartsAndEndsQuoted(s: string) {
    s != "" && s[0] == '\'' && s[|s| - 1] == '\''
  }

  function StripSingleQuotes(s: string): string {
    if !StartsAndEndsQuoted(s) then s
    else if |s| < 2 then ""
    else Unescape(s[1..|s| - 1])
  }

  // ---- scalars ----

  function ParseScalar(raw: string): Scalar {
    var trimmed := Trim(raw);
    if StartsAndEndsQuoted(trimmed) && |trimmed| >= 2 then Str(Unescape(trimmed[1..|trimmed| - 1]))
    else if trimmed == "true" then Flag(true)
    else if trimmed == "false" then Flag(false)
    else if IsNumeral(trimmed) then Num(ReadNumeral(trimmed))
    else Str(trimmed)
  }

  function SerializeScalar(value: Scalar): string {
    match value
    case Str(text) => Quote(text)
    case Num(number) => Spelled(number)
    case Flag(b) => if b then "true" else "false"
  }

  // ---- lines ----

  const URL_FIELD := "  - url:"
  const SHA_FIELD := "    sha512:"
  const SIZE_FIELD := "    size:"

  predicate StartsWith(s: string, prefix: string) {
    prefix <= s
  }

  /** What follows a field name and white space on a line without white space at its end, if anything. */
  function Field(line: string, name: string): Option<string> {
    if !StartsWith(line, name) then None
    else
      var rest := TrimStart(line[|name|..]);
      if rest != "" && OneLine(rest) then Some(rest) else None
  }

  predicate IsKeyStart(c: char) {
    'A' <= c <= 'Z' || 'a' <= c <= 'z'
  }

  predicate IsKeyChar(c: char) {
    IsKeyStart(c) || IsDigit(c)
  }

  predicate IsKey(s: string) {
    s != "" && IsKeyStart(s[0]) && forall k :: 0 <= k < |s| ==> IsKeyChar(s[k])
  }

  /** The position of the first colon, or the length. */
  function ColonIndex(line: string): (i: nat)
    ensures i <= |line| && ':' !in line[..i] && (i < |line| ==> line[i] == ':')
  {
    if line == "" || line[0] == ':' then 0 else
      assert line == [line[0]] + line[1..];
      1 + ColonIndex(line[1..])
  }

  /** A top-level entry: its key and the raw text of its value. */
  function TopLevel(line: string): Option<(string, string)> {
    var i := ColonIndex(line);
    if i == |line| || !IsKey(line[..i]) then None
    else
      var value := Field(line, line[..i + 1]);
      if value.None? then None else Some((line[..i], value.value))
  }

  // ---- the reader ----

  datatype PartialFile = PartialFile(url: string, sha512: Option<string>, size: Option<nat>)

  datatype Reading = Reading(
    files: seq<File>,
    extras: map<string, Scalar>,
    version: Option<string>,
    releaseDate: Option<string>,
    inFiles: bool,
    current: Option<PartialFile>)

  const START := Reading([], map[], None, None, false, None)

  /** Close the file entry being read, if there is one. */
  function Finalize(r: Reading, line: nat): Result<Reading> {
    match r.current
    case None => Ok(r)
    case Some(p) =>
      if p.sha512.None? || p.size.None? then Err(IncompleteFile(line))
      else Ok(r.(files := r.files + [File(p.url, p.sha512.value, p.size.value)], current := None))
  }

  function ReadEntry(r: Reading, key: string, raw: string, line: nat): Result<Reading> {
    var value := ParseScalar(raw);
    if key == "version" then
      if value.Str? then Ok(r.(version := Some(value.text))) else Err(VersionNotString(line))
    else if key == "releaseDate" then
      if value.Str? then Ok(r.(releaseDate := Some(value.text))) else Err(DateNotString(line))
    else if key == "path" || key == "sha512" then Ok(r)
    else Ok(r.(extras := r.extras[key := value]))
  }

  function ReadTopLevel(r: Reading, line: string, number: nat): Result<Reading> {
    match if r.inFiles then Finalize(r, number) else Ok(r)
    case Err(e) => Err(e)
    case Ok(closed) =>
      match TopLevel(line)
      case None => Err(UnsupportedLine(number))
      case Some((key, raw)) => ReadEntry(closed.(inFiles := false), key, raw, number)
  }

  /** Take in one line, its number counted from one. */
  function ReadLine(r: Reading, rawLine: string, number: nat): Result<Reading> {
    var line := TrimEnd(rawLine);
    var url, sha, size := Field(line, URL_FIELD), Field(line, SHA_FIELD), Field(line, SIZE_FIELD);
    if line == "" then Ok(r)
    else if url.Some? then
      match Finalize(r, number)
      case Err(e) => Err(e)
      case Ok(closed) =>
        Ok(closed.(current := Some(PartialFile(StripSingleQuotes(Trim(url.value)), None, None)), inFiles := true))
    else if sha.Some? then
      if r.current.None? then Err(ShaWithoutFile(number))
      else Ok(r.(current := Some(r.current.value.(sha512 := Some(StripSingleQuotes(Trim(sha.value)))))))
    else if size.Some? && AllDigits(size.value) then
      if r.current.None? then Err(SizeWithoutFile(number))
      else Ok(r.(current := Some(r.current.value.(size := Some(NumeralValue(size.value))))))
    else if line == "files:" then Ok(r.(inFiles := true))
    else ReadTopLevel(r, line, number)
  }

  /** Take in lines one after the other; the first of them has the given number. */
  function ReadLines(r: Reading, lines: seq<string>, number: nat): Result<Reading>
    decreases |lines|
  {
    if lines == [] then Ok(r)
    else
      match ReadLine(r, lines[0], number)
      case Err(e) => Err(e)
      case Ok(next) => ReadLines(next, lines[1..], number + 1)
  }

  function Conclude(r: Reading, lines: nat): Result<Manifest> {
    match Finalize(r, lines)
    case Err(e) => Err(e)
    case Ok(closed) =>
      if closed.version.None? || closed.version.value == "" then Err(MissingVersion)
      else if closed.releaseDate.None? || closed.releaseDate.value == "" then Err(MissingDate)
      else if closed.files == [] then Err(MissingFiles)
      else Ok(Manifest(closed.version.value, closed.releaseDate.value, closed.files, closed.extras))
  }

  function Parse(raw: string): Result<Manifest> {
    var lines := SplitLines(raw);
    match ReadLines(START, lines, 1)
    case Err(e) => Err(e)
    case Ok(r) => Conclude(r, |lines|)
  }

  method ParseUpdateManifest(raw: string) returns (result: Result<Manifest>)
    ensures result == Parse(raw)
  {
    var lines := SplitLines(raw);
    var r := START;
    var index := 0;
    assert lines[0..] == lines;
    while index < |lines|
      invariant index <= |lines|
      invariant ReadLines(START, lines, 1) == ReadLines(r, lines[index..], index + 1)
    {
      var next := ReadLine(r, lines[index], index + 1);
      assert lines[index..][1..] == lines[index + 1..];
      if next.Err? {
        return Err(next.error);
      }
      r := next.value;
      index := index + 1;
    }
    return Conclude(r, |lines|);
  }

  // ---- the printer ----

  function FileLines(f: File): seq<string> {
    [URL_FIELD + " " + f.url, SHA_FIELD + " " + f.sha512, SIZE_FIELD + " " + Spelled(Fraction(f.size, 0))]
  }

  function FilesLines(files: seq<File>): seq<string> {
    if files == [] then [] else FileLines(files[0]) + FilesLines(files[1..])
  }

  function ExtraLines(extras: map<string, Scalar>, keys: seq<string>): seq<string>
    requires forall k :: 0 <= k < |keys| ==> keys[k] in extras
  {
    if keys == [] then [] else [keys[0] + ": " + SerializeScalar(extras[keys[0]])] + ExtraLines(extras, keys[1..])
  }

  /** The keys in some order, each once. */
  predicate Lists(keys: seq<string>, extras: map<string, Scalar>) {
    && (forall k :: 0 <= k < |keys| ==> keys[k] in extras)
    && (forall key :: key in extras ==> key in keys)
    && (forall i, j :: 0 <= i < j < |keys| ==> keys[i] != keys[j])
  }

  function Lines(m: Manifest, keys: seq<string>): seq<string>
    requires Lists(keys, m.extras)
  {
    ["version: " + Quote(m.version), "files:"] + FilesLines(m.files) + ExtraLines(m.extras, keys)
    + ["releaseDate: " + Quote(m.releaseDate), ""]
  }

  function Serialize(m: Manifest, keys: seq<string>): string
    requires Lists(keys, m.extras)
  {
    Join(Lines(m, keys), '\n')
  }

  method SerializeUpdateManifest(m: Manifest, keys: seq<string>) returns (text: string)
    requires Lists(keys, m.extras)
    ensures text == Serialize(m, keys)
  {
    hide Quote, FileLines, SerializeScalar;
    var lines := ["version: " + Quote(m.version), "files:"];
    ghost var header := lines;
    for i := 0 to |m.files|
      invariant lines + FilesLines(m.files[i..]) == header + FilesLines(m.files)
    {
      assert m.files[i..][1..] == m.files[i + 1..];
      lines := lines + FileLines(m.files[i]);
    }
    assert m.files[|m.files|..] == [] && keys[0..] == keys;
    assert lines == header + FilesLines(m.files);
    ghost var body := lines;
    for i := 0 to |keys|
      invariant lines + ExtraLines(m.extras, keys[i..]) == body + ExtraLines(m.extras, keys)
    {
      assert keys[i..][1..] == keys[i + 1..];
      lines := lines + [keys[i] + ": " + SerializeScalar(m.extras[keys[i]])];
    }
    assert keys[|keys|..] == [];
    lines := lines + ["releaseDate: " + Quote(m.releaseDate)] + [""];
    assert lines == Lines(m, keys);
    text := Join(lines, '\n');
  }
}
