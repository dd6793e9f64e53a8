/**
 * What a manifest document is read as, however it is laid out: its entries in any order and as often
 * as they come, scalars bare or quoted, entries the reader skips, blank lines, and either line ending.
 */
module ManifestLayouts {
  import opened Optional
  import opened Text
  import opened UpdateManifest
  import opened ManifestRoundTrip

  /** The texts of one file entry, and whether its size is given before its hash. */
  datatype RawFile = RawFile(url: string, sha512: string, size: string, sizeFirst: bool)

  datatype Block =
    | Blank(spaces: string)
    | Entry(key: string, raw: string)
    | FileList(files: seq<RawFile>)

  type Document = seq<Block>

  // ---- how a document is written ----

  function RawFileLines(f: RawFile): seq<string> {
    var sha, size := SHA_FIELD + " " + f.sha512, SIZE_FIELD + " " + f.size;
    [URL_FIELD + " " + f.url] + if f.sizeFirst then [size, sha] else [sha, size]
  }

  function AllFileLines(files: seq<RawFile>): seq<string> {
    if files == [] then [] else AllFileLines(files[..|files| - 1]) + RawFileLines(files[|files| - 1])
  }

  function BlockLines(block: Block): seq<string> {
    match block
    case Blank(spaces) => [spaces]
    case Entry(key, raw) => [key + ": " + raw]
    case FileList(files) => ["files:"] + AllFileLines(files)
  }

  function DocumentLines(document: Document): seq<string> {
    if document == [] then []
    else DocumentLines(document[..|document| - 1]) + BlockLines(document[|document| - 1])
  }

  predicate IsBlank(s: string) {
    OneLine(s) && forall k :: 0 <= k < |s| ==> IsSpace(s[k])
  }

  predicate IsRawFile(f: RawFile) {
    Solid(f.url) && Solid(f.sha512) && Solid(f.size) && AllDigits(f.size)
  }

  /** Keys are of ASCII letters and digits, and begin with a letter. */
  lemma KeysAre(s: string)
    ensures IsKey(s) <==>
      && s != "" && (var n := s[0] as int; 65 <= n <= 90 || 97 <= n <= 122)
      && forall k :: 0 <= k < |s| ==> var n := s[k] as int; 48 <= n <= 57 || 65 <= n <= 90 || 97 <= n <= 122
  {
    forall c: char ensures IsKeyStart(c) <==> 65 <= c as int <= 90 || 97 <= c as int <= 122 {
    }
  }

  /** Version and date, wherever they are given, are given as texts. */
  predicate IsBlock(block: Block) {
    match block
    case Blank(spaces) => IsBlank(spaces)
    case Entry(key, raw) =>
      IsKey(key) && Solid(raw) && (key == "version" || key == "releaseDate" ==> ParseScalar(raw).Str?)
    case FileList(files) => forall k :: 0 <= k < |files| ==> IsRawFile(files[k])
  }

  ghost predicate IsDocument(document: Document) {
    forall k :: 0 <= k < |document| ==> IsBlock(document[k])
  }

  // ---- what it says ----

  function StatedFile(f: RawFile): File {
    var size := if AllDigits(f.size) then NumeralValue(f.size) else 0;
    File(StripSingleQuotes(f.url), StripSingleQuotes(f.sha512), size)
  }

  function StatedFiles(files: seq<RawFile>): seq<File> {
    seq(|files|, k requires 0 <= k < |files| => StatedFile(files[k]))
  }

  /** The files of all the lists, in order. */
  function FilesOf(document: Document): seq<File> {
    if document == [] then []
    else
      var last := document[|document| - 1];
      FilesOf(document[..|document| - 1]) + if last.FileList? then StatedFiles(last.files) else []
  }

  /** The value given last for a key. */
  function LastValue(document: Document, key: string): Option<Scalar> {
    if document == [] then None
    else
      var last := document[|document| - 1];
      if last.Entry? && last.key == key then Some(ParseScalar(last.raw))
      else LastValue(document[..|document| - 1], key)
  }

  function LastText(document: Document, key: string): Option<string> {
    var value := LastValue(document, key);
    if value.Some? && value.value.Str? then Some(value.value.text) else None
  }

  /** The keys that have a value and no meaning of their own. */
  function ExtraKeys(document: Document): set<string> {
    if document == [] then {}
    else
      var last := document[|document| - 1];
      ExtraKeys(document[..|document| - 1]) + if last.Entry? && last.key !in RESERVED then {last.key} else {}
  }

  lemma {:induction false} ExtraKeysHaveValues(document: Document)
    ensures forall key :: key in ExtraKeys(document) <==> key !in RESERVED && LastValue(document, key).Some?
  {
    if document != [] {
      ExtraKeysHaveValues(document[..|document| - 1]);
    }
  }

  function ExtrasOf(document: Document): map<string, Scalar> {
    ExtraKeysHaveValues(document);
    map key | key in ExtraKeys(document) :: LastValue(document, key).value
  }

  /** The whole manifest, or the first of its parts that is missing. */
  function Stated(document: Document): Result<Manifest> {
    var version, date := LastText(document, "version").UnwrapOr(""), LastText(document, "releaseDate").UnwrapOr("");
    if version == "" then Err(MissingVersion)
    else if date == "" then Err(MissingDate)
    else if FilesOf(document) == [] then Err(MissingFiles)
    else Ok(Manifest(version, date, FilesOf(document), ExtrasOf(document)))
  }

  // ---- reading it ----

  /** What has been read of a document once its last file is closed. */
  function ReadingOf(document: Document): Reading {
    Reading(FilesOf(document), ExtrasOf(document), LastText(document, "version"), LastText(document, "releaseDate"),
            false, None)
  }

  predicate Reads(document: Document, r: Reading) {
    Closable(r) && Close(r) == ReadingOf(document)
  }

  lemma {:induction false} BlankTrims(s: string)
    requires forall k :: 0 <= k < |s| ==> IsSpace(s[k])
    ensures TrimEnd(s) == ""
  {
    if s != "" {
      BlankTrims(s[..|s| - 1]);
    }
  }

  lemma BlankIsSkipped(r: Reading, spaces: string, number: nat)
    requires IsBlank(spaces)
    ensures ReadLine(r, spaces, number) == Ok(r)
  {
    BlankTrims(spaces);
  }

  lemma EntryIsRead(r: Reading, key: string, raw: string, number: nat)
    requires Closable(r) && IsBlock(Entry(key, raw))
    ensures ReadLine(r, key + ": " + raw, number) == ReadEntry(Close(r), key, raw, number)
    ensures ReadEntry(Close(r), key, raw, number).Ok?
  {
    EntryReads(r, key, raw, number);
    hide ReadLine, ParseScalar, IsKey, Solid;
  }

  lemma SolidTrims(s: string)
    requires Solid(s)
    ensures Trim(s) == s
  {
    TrimmedStays(s);
  }

  lemma UrlIsRead(r: Reading, url: string, number: nat)
    requires Closable(r) && Solid(url)
    ensures ReadLine(r, URL_FIELD + " " + url, number) ==
      Ok(Close(r).(current := Some(PartialFile(StripSingleQuotes(url), None, None)), inFiles := true))
  {
    SolidTrims(url);
    FieldReads(URL_FIELD, url);
    hide Trim, Solid, StripSingleQuotes;
  }

  lemma ShaIsRead(r: Reading, sha512: string, number: nat)
    requires r.current.Some? && Solid(sha512)
    ensures ReadLine(r, SHA_FIELD + " " + sha512, number) ==
      Ok(r.(current := Some(r.current.value.(sha512 := Some(StripSingleQuotes(sha512))))))
  {
    SolidTrims(sha512);
    FieldReads(SHA_FIELD, sha512);
    ShaFieldMisses(sha512);
    hide Trim, Solid, StripSingleQuotes, Field, TrimEnd;
  }

  lemma SizeIsRead(r: Reading, size: string, number: nat)
    requires r.current.Some? && Solid(size) && AllDigits(size)
    ensures ReadLine(r, SIZE_FIELD + " " + size, number) ==
      Ok(r.(current := Some(r.current.value.(size := Some(NumeralValue(size))))))
  {
    FieldReads(SIZE_FIELD, size);
    SizeFieldMisses(size);
    hide Trim, Solid, Field, TrimEnd, NumeralValue;
  }

  /** The three lines of a file, in either order. */
  lemma RawFileReads(r: Reading, f: RawFile, number: nat)
    requires Closable(r) && IsRawFile(f)
    ensures ReadLines(r, RawFileLines(f), number) ==
      Ok(Close(r).(current := Some(Complete(StatedFile(f))), inFiles := true))
  {
    var lines, stated := RawFileLines(f), StatedFile(f);
    UrlIsRead(r, f.url, number);
    var begun := Close(r).(current := Some(PartialFile(stated.url, None, None)), inFiles := true);
    var hashed := begun.(current := Some(PartialFile(stated.url, Some(stated.sha512), None)));
    var sized := begun.(current := Some(PartialFile(stated.url, None, Some(stated.size))));
    var full := begun.(current := Some(Complete(stated)));
    var half := if f.sizeFirst then sized else hashed;
    if f.sizeFirst {
      SizeIsRead(begun, f.size, number + 1);
      ShaIsRead(sized, f.sha512, number + 2);
    } else {
      ShaIsRead(begun, f.sha512, number + 1);
      SizeIsRead(hashed, f.size, number + 2);
    }
    assert |lines| == 3 && lines == [lines[0]] + ([lines[1]] + ([lines[2]] + []));
    hide ReadLine, RawFileLines, StatedFile, Solid, AllDigits, Close;
    ReadCons(r, lines[0], [lines[1]] + ([lines[2]] + []), number, begun);
    ReadCons(begun, lines[1], [lines[2]] + [], number + 1, half);
    ReadCons(half, lines[2], [], number + 2, full);
  }

  function Complete(f: File): PartialFile {
    PartialFile(f.url, Some(f.sha512), Some(f.size))
  }

  lemma {:induction false} RawFilesRead(r: Reading, files: seq<RawFile>, number: nat) returns (next: Reading)
    requires Closable(r) && forall k :: 0 <= k < |files| ==> IsRawFile(files[k])
    ensures ReadLines(r, AllFileLines(files), number) == Ok(next)
    ensures Closable(next) && Close(next) == Close(r).(files := Close(r).files + StatedFiles(files))
    decreases |files|
  {
    hide ReadLine, RawFileLines, StatedFile, IsRawFile;
    if files == [] {
      next := r;
      assert Close(r).files + [] == Close(r).files;
    } else {
      var n := |files| - 1;
      var before := RawFilesRead(r, files[..n], number);
      assert IsRawFile(files[n]);
      RawFileReads(before, files[n], number + |AllFileLines(files[..n])|);
      ReadLinesAppend(r, AllFileLines(files[..n]), RawFileLines(files[n]), number);
      next := Close(before).(current := Some(Complete(StatedFile(files[n]))), inFiles := true);
      assert StatedFiles(files) == StatedFiles(files[..n]) + [StatedFile(files[n])];
    }
  }

  lemma ExtrasGrow(document: Document, key: string, raw: string)
    ensures var longer := document + [Entry(key, raw)];
      ExtrasOf(longer) ==
        if key in RESERVED then ExtrasOf(document) else ExtrasOf(document)[key := ParseScalar(raw)]
  {
    var longer := document + [Entry(key, raw)];
    assert longer[..|document|] == document;
    hide ParseScalar;
    forall other ensures other != key ==> LastValue(longer, other) == LastValue(document, other) {
    }
    assert LastValue(longer, key) == Some(ParseScalar(raw));
    ExtraKeysHaveValues(document);
    ExtraKeysHaveValues(longer);
  }

  lemma ExtrasStay(document: Document, block: Block)
    requires !block.Entry?
    ensures ExtrasOf(document + [block]) == ExtrasOf(document)
    ensures forall key :: LastValue(document + [block], key) == LastValue(document, key)
  {
    var longer := document + [block];
    assert longer[..|document|] == document;
    assert forall key :: LastValue(longer, key) == LastValue(document, key);
    assert ExtraKeys(longer) == ExtraKeys(document);
  }

  lemma FilesGrow(document: Document, block: Block)
    requires IsDocument(document) && IsBlock(block)
    ensures IsDocument(document + [block])
    ensures FilesOf(document + [block]) == FilesOf(document) + if block.FileList? then StatedFiles(block.files) else []
  {
    assert (document + [block])[..|document|] == document;
    hide IsBlock, StatedFiles;
  }

  lemma TextsGrow(document: Document, key: string, raw: string, other: string)
    ensures LastValue(document + [Entry(key, raw)], other) ==
      if other == key then Some(ParseScalar(raw)) else LastValue(document, other)
  {
    hide ParseScalar;
    assert (document + [Entry(key, raw)])[..|document|] == document;
  }

  lemma EntryGrows(document: Document, key: string, raw: string, number: nat)
    requires IsBlock(Entry(key, raw))
    ensures ReadEntry(ReadingOf(document), key, raw, number) == Ok(ReadingOf(document + [Entry(key, raw)]))
  {
    ExtrasGrow(document, key, raw);
    TextsGrow(document, key, raw, "version");
    TextsGrow(document, key, raw, "releaseDate");
    assert (document + [Entry(key, raw)])[..|document|] == document;
    assert FilesOf(document + [Entry(key, raw)]) == FilesOf(document);
    hide ParseScalar, IsKey, Solid, ExtrasOf, FilesOf, LastValue;
  }

  lemma BlockReads(document: Document, r: Reading, block: Block, number: nat) returns (next: Reading)
    requires IsDocument(document) && IsBlock(block) && Reads(document, r)
    ensures IsDocument(document + [block])
    ensures ReadLines(r, BlockLines(block), number) == Ok(next) && Reads(document + [block], next)
    ensures block.Entry? ==> next.current.None?
  {
    FilesGrow(document, block);
    match block
    case Blank(spaces) =>
      BlankIsSkipped(r, spaces, number);
      ExtrasStay(document, block);
      next := r;
      hide ReadLine, IsBlank, LastValue, ExtrasOf, FilesOf;
      ReadCons(r, spaces, [], number, next);
      assert [spaces] + [] == [spaces];
    case Entry(key, raw) =>
      EntryIsRead(r, key, raw, number);
      EntryGrows(document, key, raw, number);
      next := ReadEntry(Close(r), key, raw, number).value;
      hide ReadLine, IsBlock, ReadEntry, LastValue, ExtrasOf, FilesOf;
      ReadCons(r, key + ": " + raw, [], number, next);
      assert [key + ": " + raw] + [] == [key + ": " + raw];
    case FileList(files) =>
      ExtrasStay(document, block);
      FilesLineReads(r, number);
      var listing := r.(inFiles := true);
      assert Closable(listing) && Close(listing) == Close(r);
      hide ReadLine, LastValue, ExtrasOf, FilesOf, IsRawFile;
      next := RawFilesRead(listing, files, number + 1);
      ReadCons(r, "files:", AllFileLines(files), number, listing);
  }

  lemma NothingReads()
    ensures DocumentLines([]) == [] && ReadLines(START, [], 1) == Ok(START) && Reads([], START)
  {
  }

  lemma LastBlockReads(init: Document, before: Reading, block: Block) returns (r: Reading)
    requires IsDocument(init) && IsBlock(block)
    requires ReadLines(START, DocumentLines(init), 1) == Ok(before) && Reads(init, before)
    ensures ReadLines(START, DocumentLines(init + [block]), 1) == Ok(r) && Reads(init + [block], r)
    ensures block.Entry? ==> r.current.None?
  {
    var lines := DocumentLines(init);
    assert (init + [block])[..|init|] == init;
    assert DocumentLines(init + [block]) == lines + BlockLines(block);
    hide *;
    r := BlockReads(init, before, block, 1 + |lines|);
    ReadLinesAppend(START, lines, BlockLines(block), 1);
    ReadOn(before, BlockLines(block), 1 + |lines|);
  }

  lemma ReadOn(r: Reading, lines: seq<string>, number: nat)
    ensures ReadLinesOn(Ok(r), lines, number) == ReadLines(r, lines, number)
  {
  }

  lemma {:induction false} DocumentReads(document: Document) returns (r: Reading)
    requires IsDocument(document)
    ensures ReadLines(START, DocumentLines(document), 1) == Ok(r) && Reads(document, r)
    ensures EndsClosed(document) ==> r.current.None?
  {
    hide Reads, IsBlock, ReadLines, DocumentLines;
    if document == [] {
      NothingReads();
      r := START;
    } else {
      var n := |document| - 1;
      var before := DocumentReads(document[..n]);
      assert document == document[..n] + [document[n]];
      r := LastBlockReads(document[..n], before, document[n]);
    }
  }

  // ---- the text of a document ----

  /** The lines with either line ending between them. */
  function Ended(lines: seq<string>, crlf: bool): seq<string> {
    seq(|lines|, k requires 0 <= k < |lines| => lines[k] + if crlf && k + 1 < |lines| then "\r" else "")
  }

  function Laid(document: Document, crlf: bool): string {
    Join(Ended(DocumentLines(document) + [""], crlf), '\n')
  }

  lemma EndedLine(line: string, crlf: bool)
    requires OneLine(line)
    ensures var ended := line + if crlf then "\r" else "";
      '\n' !in ended && DropReturn(ended) == line
  {
  }

  lemma SplitLinesOfEnded(lines: seq<string>, crlf: bool)
    requires lines != [] && OneLines(lines)
    ensures SplitLines(Join(Ended(lines, crlf), '\n')) == lines
  {
    hide DropReturn, OneLine, Join, SplitOn;
    var ended := Ended(lines, crlf);
    forall k | 0 <= k < |ended| ensures '\n' !in ended[k] && (k + 1 < |ended| ==> DropReturn(ended[k]) == lines[k]) {
      EndedLine(lines[k], crlf && k + 1 < |lines|);
    }
    assert ended[|ended| - 1] == lines[|lines| - 1] + "";
    SplitOfJoin(ended, '\n');
    var read := SplitLines(Join(ended, '\n'));
    assert |read| == |lines|;
    forall k | 0 <= k < |lines| ensures read[k] == lines[k] {
      assert k + 1 < |ended| ==> DropReturn(ended[k]) == lines[k];
    }
  }

  lemma RawFileIsLines(f: RawFile)
    requires IsRawFile(f)
    ensures OneLines(RawFileLines(f))
  {
    FieldNamesAreLines();
    hide OneLine;
    OneLineAppend(URL_FIELD + " ", f.url);
    OneLineAppend(SHA_FIELD + " ", f.sha512);
    OneLineAppend(SIZE_FIELD + " ", f.size);
  }

  lemma {:induction false} FileListIsLines(files: seq<RawFile>)
    requires forall k :: 0 <= k < |files| ==> IsRawFile(files[k])
    ensures OneLines(AllFileLines(files))
  {
    if files != [] {
      var n := |files| - 1;
      FileListIsLines(files[..n]);
      RawFileIsLines(files[n]);
      hide OneLines, RawFileLines, IsRawFile;
      OneLinesConcat(AllFileLines(files[..n]), RawFileLines(files[n]));
    }
  }

  lemma BlockIsLines(block: Block)
    requires IsBlock(block)
    ensures OneLines(BlockLines(block))
  {
    match block
    case Blank(_) =>
    case Entry(key, raw) =>
      assert OneLine(key + ": ");
      hide IsKey, ParseScalar;
      OneLineAppend(key + ": ", raw);
    case FileList(files) =>
      FileListIsLines(files);
      FixedLinesAreLines();
      hide OneLine, IsRawFile;
      OneLinesConcat(["files:"], AllFileLines(files));
  }

  lemma {:induction false} DocumentIsLines(document: Document)
    requires IsDocument(document)
    ensures OneLines(DocumentLines(document))
  {
    if document != [] {
      var n := |document| - 1;
      DocumentIsLines(document[..n]);
      BlockIsLines(document[n]);
      hide OneLines, BlockLines, IsBlock;
      OneLinesConcat(DocumentLines(document[..n]), BlockLines(document[n]));
    }
  }

  /** Every document is read as what it says, or as the first of its parts that is missing. */
  lemma LayoutReads(document: Document, crlf: bool)
    requires IsDocument(document)
    ensures Parse(Laid(document, crlf)) == Stated(document)
  {
    var lines := DocumentLines(document);
    var r := DocumentReads(document);
    DocumentIsLines(document);
    FixedLinesAreLines();
    hide IsDocument, OneLine, DocumentLines, IsBlock, FilesOf, ExtrasOf, LastText;
    OneLinesConcat(lines, [""]);
    SplitLinesOfEnded(lines + [""], crlf);
    assert ReadLine(r, "", 1 + |lines|) == Ok(r);
    hide ReadLine, SplitLines, Ended, OneLines;
    ReadCons(r, "", [], 1 + |lines|, r);
    assert [""] + [] == [""];
    ReadLinesAppend(START, lines, [""], 1);
    hide ReadLines;
    assert Finalize(r, |lines| + 1).value.(inFiles := false) == Close(r);
  }

  /** Entries with the path and hash of a single file, wherever they stand, make no difference. */
  lemma PathAndHashAreSkipped(before: Document, after: Document, raw: string, key: string)
    requires IsDocument(before) && IsDocument(after) && Solid(raw) && (key == "path" || key == "sha512")
    ensures IsDocument(before + [Entry(key, raw)] + after) && IsDocument(before + after)
    ensures Stated(before + [Entry(key, raw)] + after) == Stated(before + after)
  {
    assert IsBlock(Entry(key, raw));
    SkippedChangesNothing(before, after, Entry(key, raw));
    SaysTheSame(before + [Entry(key, raw)] + after, before + after, key);
  }

  lemma SaysTheSame(a: Document, b: Document, skipped: string)
    requires FilesOf(a) == FilesOf(b) && ExtraKeys(a) == ExtraKeys(b) && (skipped == "path" || skipped == "sha512")
    requires forall key :: key != skipped ==> LastValue(a, key) == LastValue(b, key)
    ensures Stated(a) == Stated(b)
  {
    ExtraKeysHaveValues(a);
    assert ExtrasOf(a) == ExtrasOf(b);
    assert LastText(a, "version") == LastText(b, "version");
    assert LastText(a, "releaseDate") == LastText(b, "releaseDate");
    hide FilesOf, ExtrasOf, LastText;
  }

  lemma {:induction false} SkippedChangesNothing(before: Document, after: Document, block: Block)
    requires IsDocument(before) && IsDocument(after) && IsBlock(block)
    requires block.Entry? && (block.key == "path" || block.key == "sha512")
    ensures IsDocument(before + [block] + after) && IsDocument(before + after)
    ensures FilesOf(before + [block] + after) == FilesOf(before + after)
    ensures ExtraKeys(before + [block] + after) == ExtraKeys(before + after)
    ensures forall key :: key != block.key ==>
      LastValue(before + [block] + after, key) == LastValue(before + after, key)
    decreases |after|
  {
    hide IsBlock, ParseScalar, StatedFiles;
    if after == [] {
      assert before + [block] + after == before + [block] && before + after == before;
      assert (before + [block])[..|before|] == before;
    } else {
      var n := |after| - 1;
      SkippedChangesNothing(before, after[..n], block);
      assert (before + [block] + after)[..|before| + 1 + n] == before + [block] + after[..n];
      assert (before + after)[..|before| + n] == before + after[..n];
    }
  }

  // ---- documents with a fault ----

  /** What a document cannot go on with: a version or date that is no text, a stray or missing line, anything else. */
  datatype Fault =
    | NoTextVersion(raw: string)
    | NoTextDate(raw: string)
    | StrayHash(raw: string)
    | StraySize(raw: string)
    | NoHash(url: string, key: string, raw: string)
    | Unknown(line: string)

  function FaultLines(fault: Fault): seq<string> {
    match fault
    case NoTextVersion(raw) => ["version: " + raw]
    case NoTextDate(raw) => ["releaseDate: " + raw]
    case StrayHash(raw) => [SHA_FIELD + " " + raw]
    case StraySize(raw) => [SIZE_FIELD + " " + raw]
    case NoHash(url, key, raw) => [URL_FIELD + " " + url, key + ": " + raw]
    case Unknown(line) => [line]
  }

  /** No file entry is open where the document ends. */
  predicate EndsClosed(document: Document) {
    document == [] || document[|document| - 1].Entry?
  }

  predicate IsFault(fault: Fault, document: Document) {
    match fault
    case NoTextVersion(raw) => Solid(raw) && !ParseScalar(raw).Str?
    case NoTextDate(raw) => Solid(raw) && !ParseScalar(raw).Str?
    case StrayHash(raw) => Solid(raw) && EndsClosed(document)
    case StraySize(raw) => Solid(raw) && AllDigits(raw) && EndsClosed(document)
    case NoHash(url, key, raw) => Solid(url) && Solid(raw) && IsKey(key)
    case Unknown(line) => Solid(line) && !IsKeyStart(line[0])
  }

  /** The error, with the number of the line at which the reader notices. */
  function ErrorOf(fault: Fault, number: nat): Error {
    match fault
    case NoTextVersion(_) => VersionNotString(number)
    case NoTextDate(_) => DateNotString(number)
    case StrayHash(_) => ShaWithoutFile(number)
    case StraySize(_) => SizeWithoutFile(number)
    case NoHash(_, _, _) => IncompleteFile(number + 1)
    case Unknown(_) => UnsupportedLine(number)
  }

  lemma NoTextStops(r: Reading, key: string, raw: string, number: nat)
    requires Closable(r) && Solid(raw) && !ParseScalar(raw).Str? && (key == "version" || key == "releaseDate")
    ensures ReadLine(r, key + ": " + raw, number) ==
      Err(if key == "version" then VersionNotString(number) else DateNotString(number))
  {
    VersionIsKey();
    DateIsKey();
    EntryReads(r, key, raw, number);
    hide ReadLine, ParseScalar, Solid;
  }

  lemma StrayStops(r: Reading, raw: string, number: nat)
    requires r.current.None? && Solid(raw)
    ensures ReadLine(r, SHA_FIELD + " " + raw, number) == Err(ShaWithoutFile(number))
    ensures AllDigits(raw) ==> ReadLine(r, SIZE_FIELD + " " + raw, number) == Err(SizeWithoutFile(number))
  {
    FieldReads(SHA_FIELD, raw);
    ShaFieldMisses(raw);
    FieldReads(SIZE_FIELD, raw);
    SizeFieldMisses(raw);
    hide Field, TrimEnd, Solid, AllDigits;
  }

  lemma NoHashStops(r: Reading, key: string, raw: string, number: nat)
    requires r.inFiles && r.current.Some? && r.current.value.sha512.None? && IsKey(key) && Solid(raw)
    ensures ReadLine(r, key + ": " + raw, number) == Err(IncompleteFile(number))
  {
    EntryReads(r, key, raw, number);
    hide ReadLine, Solid;
  }

  lemma UnknownStops(r: Reading, line: string, number: nat)
    requires Closable(r) && Solid(line) && !IsKeyStart(line[0])
    ensures ReadLine(r, line, number) == Err(UnsupportedLine(number))
  {
    assert !IsSpace(line[0]) && IsSpace(' ');
    OtherFieldsMiss(line, URL_FIELD, 0);
    OtherFieldsMiss(line, SHA_FIELD, 0);
    OtherFieldsMiss(line, SIZE_FIELD, 0);
    assert TrimEnd(line) == line;
    assert line != "files:";
    FallsThrough(r, line, number);
    assert TopLevel(line).None?;
  }

  lemma ErrorStops(r: Reading, line: string, rest: seq<string>, number: nat)
    requires ReadLine(r, line, number).Err?
    ensures ReadLines(r, [line] + rest, number) == Err(ReadLine(r, line, number).error)
  {
    hide ReadLine;
  }

  lemma FaultStops(document: Document, r: Reading, fault: Fault, rest: seq<string>, number: nat)
    requires Closable(r) && (EndsClosed(document) ==> r.current.None?) && IsFault(fault, document)
    ensures ReadLines(r, FaultLines(fault) + rest, number) == Err(ErrorOf(fault, number))
  {
    hide ReadLine, ReadLines, Solid, ParseScalar, AllDigits, IsKeyStart, EndsClosed;
    match fault
    case NoTextVersion(raw) =>
      NoTextStops(r, "version", raw, number);
      assert "version" + ": " + raw == "version: " + raw;
      ErrorStops(r, "version: " + raw, rest, number);
    case NoTextDate(raw) =>
      NoTextStops(r, "releaseDate", raw, number);
      assert "releaseDate" + ": " + raw == "releaseDate: " + raw;
      ErrorStops(r, "releaseDate: " + raw, rest, number);
    case StrayHash(raw) =>
      StrayStops(r, raw, number);
      ErrorStops(r, SHA_FIELD + " " + raw, rest, number);
    case StraySize(raw) =>
      StrayStops(r, raw, number);
      ErrorStops(r, SIZE_FIELD + " " + raw, rest, number);
    case NoHash(url, key, raw) =>
      var begun := Close(r).(current := Some(PartialFile(StripSingleQuotes(url), None, None)), inFiles := true);
      UrlIsRead(r, url, number);
      NoHashStops(begun, key, raw, number + 1);
      ErrorStops(begun, key + ": " + raw, rest, number + 1);
      ReadCons(r, URL_FIELD + " " + url, [key + ": " + raw] + rest, number, begun);
      assert FaultLines(fault) + rest == [URL_FIELD + " " + url] + ([key + ": " + raw] + rest);
    case Unknown(line) =>
      UnknownStops(r, line, number);
      ErrorStops(r, line, rest, number);
  }

  /** A document that goes wrong is refused with the error and the number of the line, whatever comes after. */
  lemma FaultIsReported(document: Document, fault: Fault, rest: seq<string>, crlf: bool)
    requires IsDocument(document) && IsFault(fault, document) && OneLines(FaultLines(fault) + rest)
    ensures var lines := DocumentLines(document);
      Parse(Join(Ended(lines + (FaultLines(fault) + rest), crlf), '\n')) == Err(ErrorOf(fault, |lines| + 1))
  {
    var lines, more := DocumentLines(document), FaultLines(fault) + rest;
    DocumentIsLines(document);
    var r := DocumentReads(document);
    assert FaultLines(fault) != [];
    hide DocumentLines, FaultLines, IsFault, IsDocument, SplitLines, Join, Ended, ReadLines, ErrorOf;
    OneLinesConcat(lines, more);
    SplitLinesOfEnded(lines + more, crlf);
    FaultStops(document, r, fault, rest, 1 + |lines|);
    ReadLinesAppend(START, lines, more, 1);
  }

  // ---- any text at all ----

  /** The extras of whatever is read have proper keys, none of which has a meaning of its own. */
  lemma ExtrasAreKeyed(raw: string)
    requires Parse(raw).Ok?
    ensures forall key :: key in Parse(raw).value.extras ==> IsKey(key) && key !in RESERVED
  {
    hide ReadLine, IsKey;
    LinesKeepKeys(START, SplitLines(raw), 1);
  }

  lemma LineKeepsKeys(r: Reading, line: string, number: nat)
    requires ReadLine(r, line, number).Ok? && forall key :: key in r.extras ==> IsKey(key) && key !in RESERVED
    ensures forall key :: key in ReadLine(r, line, number).value.extras ==> IsKey(key) && key !in RESERVED
  {
    hide Field, TrimEnd, StripSingleQuotes, NumeralValue, ParseScalar, AllDigits, ColonIndex;
  }

  lemma {:induction false} LinesKeepKeys(r: Reading, lines: seq<string>, number: nat)
    requires ReadLines(r, lines, number).Ok? && forall key :: key in r.extras ==> IsKey(key) && key !in RESERVED
    ensures forall key :: key in ReadLines(r, lines, number).value.extras ==> IsKey(key) && key !in RESERVED
    decreases |lines|
  {
    hide ReadLine, IsKey;
    if lines != [] {
      LineKeepsKeys(r, lines[0], number);
      LinesKeepKeys(ReadLine(r, lines[0], number).value, lines[1..], number + 1);
    }
  }
}
