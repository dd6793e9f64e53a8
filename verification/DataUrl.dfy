/** Reading `data:` URLs with a base64 payload, in two passes over the payload. */
module DataUrl {
  import opened Base64
  import opened Optional
  import opened Text

  datatype Image = Image(mimeType: string, base64: string)

  // ---- characters ----

  /** Letters, digits, `+`, `/`, and the padding character. */
  predicate IsBase64Char(c: char) {
    'a' <= c <= 'z' || 'A' <= c <= 'Z' || IsDigit(c) || c == '+' || c == '/' || c == '='
  }

  predicate IsBase64Whitespace(c: char) {
    c == '\r' || c == '\n' || c == ' '
  }

  // ---- the header ----

  function LowerAscii(s: string): string {
    seq(|s|, k requires 0 <= k < |s| => if 'A' <= s[k] <= 'Z' then 'a' + (s[k] - 'A') else s[k])
  }

  function NonEmptyTrimmed(parts: seq<string>): seq<string> {
    if parts == [] then []
    else
      var last := Trim(parts[|parts| - 1]);
      NonEmptyTrimmed(parts[..|parts| - 1]) + if last == "" then [] else [last]
  }

  /** Up to the first comma, or all of it. */
  function CommaIndex(s: string): (n: nat)
    ensures n <= |s| && ',' !in s[..n] && (n < |s| ==> s[n] == ',')
  {
    if s == "" || s[0] == ',' then 0
    else
      var n := 1 + CommaIndex(s[1..]);
      assert s[..n] == [s[0]] + s[1..][..n - 1];
      n
  }

  datatype Header = Header(mimeType: string, payload: string)

  /** The text between `data:` and the comma must name a type first and `base64` last. */
  function ReadHeader(dataUrl: string): Option<Header> {
    var trimmed := Trim(dataUrl);
    if |trimmed| < 6 || LowerAscii(trimmed[..5]) != "data:" then None
    else
      var rest := trimmed[5..];
      var comma := CommaIndex(rest);
      if comma == |rest| then None
      else
        var parts := NonEmptyTrimmed(SplitOn(rest[..comma], ';'));
        if |parts| < 2 || LowerAscii(parts[|parts| - 1]) != "base64" then None
        else Some(Header(LowerAscii(parts[0]), rest[comma + 1..]))
  }

  // ---- the payload ----

  /** The payload without carriage returns, newlines and spaces. */
  function Compacted(payload: string): string {
    if payload == "" then ""
    else
      var last := payload[|payload| - 1];
      Compacted(payload[..|payload| - 1]) + if IsBase64Whitespace(last) then "" else [last]
  }

  predicate IsAlphabetChar(c: char) {
    IsBase64Char(c) && c != '='
  }

  /**
   * Padded base64 as in section 4 of RFC 4648: groups of four characters, of which the last may end in one or two
   * paddings.
   */
  predicate IsPaddedBase64(text: string) {
    && text != "" && |text| % 4 == 0
    && (forall k :: 0 <= k < |text| - 2 ==> IsAlphabetChar(text[k]))
    && (IsAlphabetChar(text[|text| - 2]) || (text[|text| - 2] == '=' && text[|text| - 1] == '='))
    && (IsAlphabetChar(text[|text| - 1]) || text[|text| - 1] == '=')
  }

  /** What parsing gives: the type in lower case and the compacted payload, if that is non-empty padded base64. */
  function Parsed(dataUrl: string): Option<Image> {
    match ReadHeader(dataUrl)
    case None => None
    case Some(header) =>
      var text := Compacted(header.payload);
      if IsPaddedBase64(text) then Some(Image(header.mimeType, text)) else None
  }

  function CountChars(payload: string): (n: nat)
    ensures n <= |payload|
  {
    if payload == "" then 0
    else CountChars(payload[..|payload| - 1]) + if IsBase64Char(payload[|payload| - 1]) then 1 else 0
  }

  ghost predicate OnlyBase64(payload: string) {
    forall k :: 0 <= k < |payload| ==> IsBase64Char(payload[k]) || IsBase64Whitespace(payload[k])
  }

  lemma {:induction false} CompactedFacts(payload: string)
    requires OnlyBase64(payload)
    ensures |Compacted(payload)| == CountChars(payload)
    ensures forall k :: 0 <= k < |Compacted(payload)| ==> IsBase64Char(Compacted(payload)[k])
    ensures CountChars(payload) == |payload| ==> Compacted(payload) == payload
  {
    hide IsBase64Char, IsBase64Whitespace;
    if payload != "" {
      var init, last := payload[..|payload| - 1], payload[|payload| - 1];
      NotBoth(last);
      CompactedFacts(init);
      assert payload == init + [last];
    }
  }

  lemma NotBoth(c: char)
    ensures !(IsBase64Char(c) && IsBase64Whitespace(c))
  {
  }

  lemma {:induction false} CompactedKeeps(payload: string, k: nat)
    requires k < |payload| && !IsBase64Whitespace(payload[k])
    ensures payload[k] in Compacted(payload)
  {
    if k < |payload| - 1 {
      CompactedKeeps(payload[..|payload| - 1], k);
    }
  }

  /** A payload with any other character is not base64 once compacted. */
  lemma OthersAreRefused(payload: string)
    requires !OnlyBase64(payload)
    ensures !IsPaddedBase64(Compacted(payload))
  {
    var k: nat :| k < |payload| && !IsBase64Char(payload[k]) && !IsBase64Whitespace(payload[k]);
    CompactedKeeps(payload, k);
  }

  /** The first pass: every character is of one kind or the other, and those of the alphabet are counted. */
  method Scan(payload: string) returns (ok: bool, base64Length: nat, hasWhitespace: bool)
    ensures ok <==> OnlyBase64(payload)
    ensures ok ==> base64Length == CountChars(payload) && (hasWhitespace <==> base64Length < |payload|)
  {
    ok, base64Length, hasWhitespace := true, 0, false;
    for index := 0 to |payload|
      invariant forall k :: 0 <= k < index ==> IsBase64Char(payload[k]) || IsBase64Whitespace(payload[k])
      invariant base64Length == CountChars(payload[..index])
      invariant hasWhitespace <==> base64Length < index
    {
      assert payload[..index + 1][..index] == payload[..index];
      if IsBase64Char(payload[index]) {
        base64Length := base64Length + 1;
        continue;
      }
      if !IsBase64Whitespace(payload[index]) {
        ok := false;
        return;
      }
      hasWhitespace := true;
    }
    assert payload[..|payload|] == payload;
  }

  /** The second pass fills a buffer of the counted length, exactly. */
  method Compact(payload: string, base64Length: nat) returns (compacted: array<char>)
    requires OnlyBase64(payload) && base64Length == CountChars(payload)
    ensures fresh(compacted) && compacted[..] == Compacted(payload)
  {
    compacted := new char[base64Length];
    var writeIndex := 0;
    for readIndex := 0 to |payload|
      invariant writeIndex == CountChars(payload[..readIndex]) <= base64Length
      invariant compacted[..writeIndex] == Compacted(payload[..readIndex])
    {
      assert payload[..readIndex + 1][..readIndex] == payload[..readIndex];
      CountGrows(payload, readIndex + 1);
      if IsBase64Char(payload[readIndex]) {
        compacted[writeIndex] := payload[readIndex];
        writeIndex := writeIndex + 1;
      }
    }
    assert payload[..|payload|] == payload;
    assert compacted[..writeIndex] == compacted[..];
  }

  lemma {:induction false} CountGrows(payload: string, n: nat)
    requires n <= |payload|
    ensures CountChars(payload[..n]) <= CountChars(payload)
    decreases |payload| - n
  {
    if n == |payload| {
      assert payload[..n] == payload;
    } else {
      CountGrows(payload, n + 1);
      assert payload[..n + 1][..n] == payload[..n];
    }
  }

  /** The position of the first padding character, or the length. */
  function PaddingIndex(s: string): (n: nat)
    ensures n <= |s| && (forall k :: 0 <= k < n ==> s[k] != '=') && (n < |s| ==> s[n] == '=')
  {
    if s == "" || s[0] == '=' then 0
    else
      var n := 1 + PaddingIndex(s[1..]);
      assert forall k :: 1 <= k < n ==> s[k] == s[1..][k - 1];
      n
  }

  /** The three tests on the tail, for a text of the right length and characters. */
  lemma PaddingTests(text: string)
    requires text != "" && |text| % 4 == 0 && forall k :: 0 <= k < |text| ==> IsBase64Char(text[k])
    ensures var first := PaddingIndex(text);
      IsPaddedBase64(text) <==>
        !(first < |text| && (first < |text| - 2 || |text[first..]| > 2 || exists c :: c in text[first..] && c != '='))
  {
    var first, last := PaddingIndex(text), |text| - 1;
    assert forall k :: 0 <= k < first ==> IsAlphabetChar(text[k]);
    if first < last - 1 {
      assert !IsAlphabetChar(text[first]);
    } else if first == last - 1 {
      assert text[first..] == ['=', text[last]];
      assert text[last] in text[first..];
    } else if first == last {
      assert text[first..] == ['='];
    }
  }

  method HeaderParts(header: string) returns (headerParts: seq<string>)
    ensures headerParts == NonEmptyTrimmed(SplitOn(header, ';'))
  {
    headerParts := [];
    var parts := SplitOn(header, ';');
    for i := 0 to |parts|
      invariant headerParts == NonEmptyTrimmed(parts[..i])
    {
      assert parts[..i + 1][..i] == parts[..i];
      var partTrimmed := Trim(parts[i]);
      if |partTrimmed| > 0 {
        headerParts := headerParts + [partTrimmed];
      }
    }
    assert parts[..|parts|] == parts;
  }

  method ParseBase64DataUrl(dataUrl: string) returns (r: Option<Image>)
    ensures r == Parsed(dataUrl)
  {
    hide NonEmptyTrimmed, SplitOn, Trim, IsPaddedBase64, Compacted, CountChars, LowerAscii;
    var trimmed := Trim(dataUrl);
    if |trimmed| < 6 || LowerAscii(trimmed[..5]) != "data:" {
      return None;
    }
    var rest := trimmed[5..];
    var commaIndex := CommaIndex(rest);
    if commaIndex == |rest| {
      return None;
    }
    var headerParts := HeaderParts(rest[..commaIndex]);
    if |headerParts| < 2 || LowerAscii(headerParts[|headerParts| - 1]) != "base64" {
      return None;
    }
    var mimeType := LowerAscii(headerParts[0]);
    var payload := rest[commaIndex + 1..];
    assert ReadHeader(dataUrl) == Some(Header(mimeType, payload));
    var base64 := ReadPayload(payload);
    r := if base64.Some? then Some(Image(mimeType, base64.value)) else None;
  }

  /** Both passes and the tests on the padding. */
  method ReadPayload(payload: string) returns (r: Option<string>)
    ensures r == if IsPaddedBase64(Compacted(payload)) then Some(Compacted(payload)) else None
  {
    var ok, base64Length, hasWhitespace := Scan(payload);
    if !ok {
      OthersAreRefused(payload);
      return None;
    }
    CompactedFacts(payload);
    if base64Length == 0 || base64Length % 4 != 0 {
      return None;
    }
    var base64 := payload;
    if hasWhitespace {
      var compacted := Compact(payload, base64Length);
      base64 := compacted[..];
    }
    assert base64 == Compacted(payload);
    PaddingTests(base64);
    var firstPaddingIndex := PaddingIndex(base64);
    if firstPaddingIndex < |base64|
       && (firstPaddingIndex < |base64| - 2 || |base64[firstPaddingIndex..]| > 2
           || exists c :: c in base64[firstPaddingIndex..] && c != '=')
    {
      return None;
    }
    return Some(base64);
  }

  // ---- what is accepted ----

  /** White space anywhere in the payload makes no difference. */
  lemma {:induction false} WhitespaceIsIgnored(before: string, c: char, after: string)
    requires IsBase64Whitespace(c)
    ensures Compacted(before + [c] + after) == Compacted(before + after)
  {
    if after == "" {
      assert (before + [c])[..|before|] == before;
      assert before + [c] + after == before + [c] && before + after == before;
    } else {
      var init := after[..|after| - 1];
      WhitespaceIsIgnored(before, c, init);
      assert (before + [c] + after)[..|before + [c] + after| - 1] == before + [c] + init;
      assert (before + after)[..|before + after| - 1] == before + init;
    }
  }

  function StandardLetter(n: Sextet): char {
    if n < 26 then 'A' + n as char
    else if n < 52 then 'a' + (n - 26) as char
    else if n < 62 then '0' + (n - 52) as char
    else if n == 62 then '+' else '/'
  }

  /** The encoding of bytes in section 4 of RFC 4648, with padding. */
  function Encoded(bytes: seq<Byte>): string {
    var sextets := Sextets(bytes);
    seq(|sextets|, k requires 0 <= k < |sextets| => StandardLetter(sextets[k]))
    + (if |bytes| % 3 == 0 then "" else if |bytes| % 3 == 1 then "==" else "=")
  }

  /** Letters, then as much padding as makes up groups of four. */
  lemma EncodedShape(bytes: seq<Byte>)
    ensures var text, n := Encoded(bytes), |Sextets(bytes)|;
      && n <= |text| <= n + 2 && |text| % 4 == 0 && (text == "" <==> bytes == []) && (bytes != [] ==> |text| >= 4)
      && forall k :: 0 <= k < |text| ==> if k < n then IsAlphabetChar(text[k]) else text[k] == '='
  {
    EncodedLength(bytes);
    SextetsLength(bytes);
    hide IsAlphabetChar, Sextets;
    var text, n := Encoded(bytes), |Sextets(bytes)|;
    forall k | 0 <= k < |text| ensures if k < n then IsAlphabetChar(text[k]) else text[k] == '=' {
      EncodedAt(bytes, k);
      if k < n {
        ValueOfLetter(Sextets(bytes)[k]);
      }
    }
  }

  /** Every encoded image is accepted and returned as it is; only its being empty is refused. */
  lemma EncodedIsAccepted(bytes: seq<Byte>)
    ensures IsPaddedBase64(Encoded(bytes)) <==> bytes != []
    ensures Compacted(Encoded(bytes)) == Encoded(bytes)
  {
    hide Encoded, Sextets;
    EncodedShape(bytes);
    var text := Encoded(bytes);
    assert OnlyBase64(text);
    CompactedFacts(text);
    AllCounted(text);
  }

  lemma {:induction false} AllCounted(text: string)
    requires forall k :: 0 <= k < |text| ==> IsBase64Char(text[k])
    ensures CountChars(text) == |text|
  {
    if text != "" {
      AllCounted(text[..|text| - 1]);
    }
  }

  /** The sextet a character of the alphabet stands for. */
  function StandardValue(c: char): Sextet
    requires IsAlphabetChar(c)
  {
    if 'A' <= c <= 'Z' then (c - 'A') as int
    else if 'a' <= c <= 'z' then 26 + (c - 'a') as int
    else if IsDigit(c) then 52 + (c - '0') as int
    else if c == '+' then 62
    else 63
  }

  lemma ValueOfLetter(n: Sextet)
    ensures IsAlphabetChar(StandardLetter(n)) && StandardValue(StandardLetter(n)) == n
  {
  }

  lemma LetterOfValue(c: char)
    requires IsAlphabetChar(c)
    ensures StandardLetter(StandardValue(c)) == c
  {
  }

  /** The characters before the padding. */
  function DataLength(text: string): nat
    requires IsPaddedBase64(text)
  {
    if text[|text| - 2] == '=' then |text| - 2 else if text[|text| - 1] == '=' then |text| - 1 else |text|
  }

  function Values(text: string): seq<Sextet>
    requires IsPaddedBase64(text)
  {
    seq(DataLength(text), k requires 0 <= k < DataLength(text) => StandardValue(text[k]))
  }

  /** The bits before the padding that belong to no byte: four before `==`, two before `=`. */
  predicate NoLeftoverBits(text: string)
    requires IsPaddedBase64(text)
  {
    if text[|text| - 2] == '=' then StandardValue(text[|text| - 3]) % 16 == 0
    else if text[|text| - 1] == '=' then StandardValue(text[|text| - 2]) % 4 == 0
    else true
  }

  lemma LeftoverOfValues(text: string)
    requires IsPaddedBase64(text)
    ensures NoLeftoverBits(text) <==> LeftoverIsZero(Values(text))
    ensures |Values(text)| % 4 != 1
  {
  }

  lemma EncodedAt(bytes: seq<Byte>, k: nat)
    requires k < |Encoded(bytes)|
    ensures Encoded(bytes)[k] ==
      if k < |Sextets(bytes)| then StandardLetter(Sextets(bytes)[k]) else '='
  {
  }

  /** The values of an encoding are its sextets. */
  lemma ValuesOfEncoded(bytes: seq<Byte>)
    requires IsPaddedBase64(Encoded(bytes))
    ensures Values(Encoded(bytes)) == Sextets(bytes)
  {
    var text, n := Encoded(bytes), |Sextets(bytes)|;
    SextetsLength(bytes);
    hide StandardLetter, StandardValue;
    assert n <= |text| <= n + 2;
    forall k | 0 <= k < |text| ensures text[k] == '=' <==> k >= n {
      EncodedAt(bytes, k);
      if k < n {
        ValueOfLetter(Sextets(bytes)[k]);
      }
    }
    assert DataLength(text) == n;
    forall k | 0 <= k < n ensures Values(text)[k] == Sextets(bytes)[k] {
      EncodedAt(bytes, k);
      ValueOfLetter(Sextets(bytes)[k]);
    }
  }

  lemma EncodedLength(bytes: seq<Byte>)
    ensures |Encoded(bytes)| == |Sextets(bytes)| + (if |bytes| % 3 == 0 then 0 else 3 - |bytes| % 3)
  {
  }

  /** Letters for the values, and then as much padding as the group lacks. */
  lemma TextAt(text: string, k: nat)
    requires IsPaddedBase64(text) && k < |text|
    ensures text[k] == if k < |Values(text)| then StandardLetter(Values(text)[k]) else '='
    ensures |text| == |Values(text)| + (if |Values(text)| % 4 == 0 then 0 else 4 - |Values(text)| % 4)
  {
    if k < |Values(text)| {
      LetterOfValue(text[k]);
    }
  }

  lemma LengthsAgree(text: string, bytes: seq<Byte>)
    requires IsPaddedBase64(text) && |Values(text)| % 4 != 1
    requires |Sextets(bytes)| == |Values(text)|
    ensures |Encoded(bytes)| == |text|
  {
    EncodedLength(bytes);
    SextetsLength(bytes);
    TextAt(text, 0);
    hide Encoded, Values, Sextets, IsPaddedBase64, StandardLetter;
  }

  /** The bytes a text without leftover bits encodes. */
  lemma EncodedOfValues(text: string)
    requires IsPaddedBase64(text) && NoLeftoverBits(text)
    ensures |Values(text)| % 4 != 1 && Encoded(FromSextets(Values(text))) == text
  {
    LeftoverOfValues(text);
    hide Encoded, Values, Sextets, FromSextets, StandardLetter, IsPaddedBase64, NoLeftoverBits, LeftoverIsZero;
    SextetsOfFromSextets(Values(text));
    var bytes := FromSextets(Values(text));
    LengthsAgree(text, bytes);
    forall k | 0 <= k < |text| ensures Encoded(bytes)[k] == text[k] {
      EncodedAt(bytes, k);
      TextAt(text, k);
    }
  }

  /**
   * Of the texts that are accepted exactly those are encodings of bytes whose leftover bits are zero; these bits are
   * not looked at.
   */
  lemma AcceptedIsEncodedWhen(text: string)
    requires IsPaddedBase64(text)
    ensures (exists bytes :: Encoded(bytes) == text) <==> NoLeftoverBits(text)
  {
    LeftoverOfValues(text);
    if bytes :| Encoded(bytes) == text {
      ValuesOfEncoded(bytes);
      SextetsLeaveZero(bytes);
    }
    if NoLeftoverBits(text) {
      EncodedOfValues(text);
    }
  }

  lemma {:induction false} CommaAfter(header: string, rest: string)
    requires ',' !in header
    ensures CommaIndex(header + "," + rest) == |header|
  {
    var s := header + "," + rest;
    if header != "" {
      CommaAfter(header[1..], rest);
      assert s[1..] == header[1..] + "," + rest;
      assert s[0] == header[0];
    }
  }

  /** A type name in the form the header keeps it: lower case, nothing to trim, no separators. */
  predicate IsPlainType(name: string) {
    && name != "" && Trimmed(name) && ',' !in name && ';' !in name
    && forall k :: 0 <= k < |name| ==> !('A' <= name[k] <= 'Z')
  }

  lemma SplitOfTwo(a: string, b: string, c: char)
    requires c !in a && c !in b
    ensures SplitOn(a + [c] + b, c) == [a, b]
  {
    SplitPrefix(a, b, c);
    SplitPrefix(b, "", c);
  }

  lemma SplitOfType(name: string)
    requires ';' !in name
    ensures SplitOn(name + ";base64", ';') == [name, "base64"]
  {
    hide SplitOn;
    assert ';' !in "base64";
    SplitOfTwo(name, "base64", ';');
    assert name + [';'] + "base64" == name + ";base64";
  }

  lemma TwoParts(a: string, b: string)
    requires a != "" && b != "" && Trim(a) == a && Trim(b) == b
    ensures NonEmptyTrimmed([a, b]) == [a, b]
  {
    hide Trim;
    assert [a, b][..1] == [a] && [a][..0] == [];
    assert NonEmptyTrimmed([a]) == NonEmptyTrimmed([]) + [a];
  }

  lemma HeaderOfType(name: string)
    requires IsPlainType(name)
    ensures NonEmptyTrimmed(SplitOn(name + ";base64", ';')) == [name, "base64"]
  {
    TrimmedStays(name);
    TrimmedStays("base64");
    hide SplitOn, Trim, IsSpace, NonEmptyTrimmed;
    SplitOfType(name);
    TwoParts(name, "base64");
  }

  lemma PaddedIsCompact(text: string)
    requires IsPaddedBase64(text)
    ensures Compacted(text) == text && !IsSpace(text[|text| - 1])
  {
    hide IsSpace;
    assert IsBase64Char(text[|text| - 1]);
    assert !IsSpace(text[|text| - 1]) by {
      Base64CharIsNoSpace(text[|text| - 1]);
    }
    assert forall k :: 0 <= k < |text| ==> IsBase64Char(text[k]);
    hide IsBase64Char, IsPaddedBase64, Compacted, CountChars;
    CompactedFacts(text);
    AllCounted(text);
  }

  lemma Base64CharIsNoSpace(c: char)
    requires IsBase64Char(c)
    ensures !IsSpace(c)
  {
  }

  lemma LowerStays(s: string)
    requires forall k :: 0 <= k < |s| ==> !('A' <= s[k] <= 'Z')
    ensures LowerAscii(s) == s
  {
  }

  lemma UrlParts(name: string, text: string)
    requires text != "" && !IsSpace(text[|text| - 1])
    ensures var url := "data:" + name + ";base64," + text;
      Trim(url) == url && |url| >= 6 && url[..5] == "data:" && url[5..] == name + ";base64" + "," + text
  {
    assert !IsSpace('d');
    hide IsSpace, TrimEnd, TrimStart;
    var url := "data:" + name + ";base64," + text;
    assert url[0] == 'd' && url[|url| - 1] == text[|text| - 1];
    TrimmedStays(url);
    assert url == "data:" + (name + ";base64" + "," + text);
  }

  lemma HeaderReads(name: string, text: string)
    requires IsPlainType(name) && text != "" && !IsSpace(text[|text| - 1])
    ensures ReadHeader("data:" + name + ";base64," + text) == Some(Header(name, text))
  {
    LowerStays("data:");
    LowerStays("base64");
    LowerStays(name);
    HeaderOfType(name);
    NoComma(name);
    hide LowerAscii, NonEmptyTrimmed, SplitOn, Trim, CommaIndex, IsSpace, IsPlainType;
    UrlParts(name, text);
    var header := name + ";base64";
    CommaAfter(header, text);
    var rest := header + "," + text;
    assert rest[..|header|] == header && rest[|header| + 1..] == text;
  }

  lemma NoComma(name: string)
    requires ',' !in name
    ensures ',' !in name + ";base64"
  {
  }

  /** A URL of any plain type around any padded base64 is accepted, with that text as it is. */
  lemma PaddedTextIsAccepted(name: string, text: string)
    requires IsPlainType(name) && IsPaddedBase64(text)
    ensures Parsed("data:" + name + ";base64," + text) == Some(Image(name, text))
  {
    PaddedIsCompact(text);
    HeaderReads(name, text);
    hide ReadHeader, IsPaddedBase64, Compacted;
  }

  lemma PngIsPlain()
    ensures IsPlainType("image/png")
  {
  }

  /** It happens: a URL that is accepted although no encoder writes its payload. */
  lemma LeftoverBitsAreNotChecked()
    ensures Parsed("data:" + "image/png" + ";base64," + "AB==") == Some(Image("image/png", "AB=="))
    ensures forall bytes :: Encoded(bytes) != "AB=="
  {
    assert IsPaddedBase64("AB==") && !NoLeftoverBits("AB==");
    PngIsPlain();
    hide Parsed, Encoded, IsPaddedBase64, IsPlainType, NoLeftoverBits;
    PaddedTextIsAccepted("image/png", "AB==");
    AcceptedIsEncodedWhen("AB==");
  }

  // ---- which headers are read ----

  /** The parts that are not blank, without the white space around them. */
  function Words(parts: seq<string>): seq<string> {
    if parts == [] then []
    else (if Trim(parts[0]) == "" then [] else [Trim(parts[0])]) + Words(parts[1..])
  }

  lemma {:induction false} WordsOfLast(parts: seq<string>, last: string)
    ensures Words(parts + [last]) == Words(parts) + if Trim(last) == "" then [] else [Trim(last)]
  {
    hide Trim;
    if parts == [] {
      assert parts + [last] == [last] && [last][1..] == [];
    } else {
      assert (parts + [last])[1..] == parts[1..] + [last];
      WordsOfLast(parts[1..], last);
    }
  }

  lemma {:induction false} WordsAreTrimmed(parts: seq<string>)
    ensures NonEmptyTrimmed(parts) == Words(parts)
  {
    hide Trim;
    if parts != [] {
      var n := |parts| - 1;
      WordsAreTrimmed(parts[..n]);
      WordsOfLast(parts[..n], parts[n]);
      assert parts == parts[..n] + [parts[n]];
    }
  }

  /** Capitals by their codes become small letters, everything else stays. */
  lemma LowerByCode(s: string)
    ensures |LowerAscii(s)| == |s|
    ensures forall k :: 0 <= k < |s| ==>
      LowerAscii(s)[k] as int == if 65 <= s[k] as int <= 90 then s[k] as int + 32 else s[k] as int
  {
  }

  /** The parts of a header: the scheme in any case, a first word that is the type, and a last one that is base64. */
  predicate IsHeader(scheme: string, parts: seq<string>, mimeType: string) {
    && LowerAscii(scheme) == "data:" && parts != []
    && (forall k :: 0 <= k < |parts| ==> ',' !in parts[k] && ';' !in parts[k])
    && |Words(parts)| >= 2
    && LowerAscii(Words(parts)[0]) == mimeType && LowerAscii(Words(parts)[|Words(parts)| - 1]) == "base64"
  }

  lemma {:induction false} NoCommaInJoin(parts: seq<string>)
    requires forall k :: 0 <= k < |parts| ==> ',' !in parts[k]
    ensures ',' !in Join(parts, ';')
  {
    if |parts| > 1 {
      NoCommaInJoin(parts[1..]);
    }
  }

  lemma HeaderIsRead(url: string, scheme: string, parts: seq<string>, mimeType: string, payload: string)
    requires IsHeader(scheme, parts, mimeType) && Trim(url) == scheme + (Join(parts, ';') + ("," + payload))
    ensures ReadHeader(url) == Some(Header(mimeType, payload))
  {
    var header := Join(parts, ';');
    var trimmed, rest := Trim(url), header + ("," + payload);
    assert |scheme| == |LowerAscii(scheme)| == 5;
    assert trimmed[..5] == scheme && trimmed[5..] == rest;
    NoCommaInJoin(parts);
    hide Trim, LowerAscii, Join, SplitOn, NonEmptyTrimmed, Words, CommaIndex;
    assert rest == header + "," + payload;
    CommaAfter(header, payload);
    assert rest[..|header|] == header && rest[|header| + 1..] == payload;
    SplitOfJoin(parts, ';');
    WordsAreTrimmed(parts);
  }

  lemma {:induction false} PiecesLack(s: string, c: char, d: char)
    requires d !in s
    ensures forall k :: 0 <= k < |SplitOn(s, c)| ==> d !in SplitOn(s, c)[k] && c !in SplitOn(s, c)[k]
  {
    if s != "" {
      PiecesLack(s[1..], c, d);
    }
  }

  lemma HeaderWas(url: string) returns (scheme: string, parts: seq<string>)
    requires ReadHeader(url).Some?
    ensures IsHeader(scheme, parts, ReadHeader(url).value.mimeType)
    ensures Trim(url) == scheme + (Join(parts, ';') + ("," + ReadHeader(url).value.payload))
  {
    hide Trim, LowerAscii, Join, SplitOn, NonEmptyTrimmed, Words, CommaIndex;
    var trimmed := Trim(url);
    var rest := trimmed[5..];
    var comma := CommaIndex(rest);
    scheme, parts := trimmed[..5], SplitOn(rest[..comma], ';');
    PiecesLack(rest[..comma], ';', ',');
    JoinOfSplit(rest[..comma], ';');
    WordsAreTrimmed(parts);
    assert rest == rest[..comma] + ("," + rest[comma + 1..]);
    assert trimmed == scheme + rest;
  }

  /** A header is read exactly when it is of that form. */
  lemma HeadersAre(url: string, mimeType: string, payload: string)
    ensures ReadHeader(url) == Some(Header(mimeType, payload)) <==>
      exists scheme, parts :: IsHeader(scheme, parts, mimeType)
        && Trim(url) == scheme + (Join(parts, ';') + ("," + payload))
  {
    hide Trim, Join, ReadHeader, IsHeader;
    if scheme, parts :| IsHeader(scheme, parts, mimeType) &&
                        Trim(url) == scheme + (Join(parts, ';') + ("," + payload)) {
      HeaderIsRead(url, scheme, parts, mimeType, payload);
    }
    if ReadHeader(url) == Some(Header(mimeType, payload)) {
      var scheme, parts := HeaderWas(url);
    }
  }
}
