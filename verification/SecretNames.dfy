/**
 * Names in the secret store: both parts of the key in unpadded URL-safe base64 (section 5 of RFC 4648), joined by
 * dashes.
 */
module SecretNames {
  import opened Base64
  import opened Text

  function Letter(n: Sextet): char {
    if n < 26 then 'A' + n as char
    else if n < 52 then 'a' + (n - 26) as char
    else if n < 62 then '0' + (n - 52) as char
    else if n == 62 then '-' else '_'
  }

  function Base64Url(bytes: seq<Byte>): string {
    var sextets := Sextets(bytes);
    seq(|sextets|, k requires 0 <= k < |sextets| => Letter(sextets[k]))
  }

  /** Distinct byte sequences have distinct texts. */
  lemma Base64UrlInjective(a: seq<Byte>, b: seq<Byte>)
    requires Base64Url(a) == Base64Url(b)
    ensures a == b
  {
    var s, t := Sextets(a), Sextets(b);
    assert |s| == |Base64Url(a)| == |Base64Url(b)| == |t|;
    forall k | 0 <= k < |s| ensures s[k] == t[k] {
      assert Letter(s[k]) == Base64Url(a)[k] == Base64Url(b)[k] == Letter(t[k]);
    }
    SextetsInjective(a, b);
  }

  // ---- names ----

  predicate Ascii(s: string) {
    forall k :: 0 <= k < |s| ==> s[k] as int < 128
  }

  function Bytes(s: string): seq<Byte>
    requires Ascii(s)
  {
    seq(|s|, k requires 0 <= k < |s| => s[k] as int)
  }

  function SecretName(instanceId: string, name: string): string
    requires Ascii(instanceId) && Ascii(name)
  {
    "provider-env-" + Base64Url(Bytes(instanceId)) + "-" + Base64Url(Bytes(name))
  }

  predicate IsLetter(c: char) {
    'a' <= c <= 'z' || 'A' <= c <= 'Z'
  }

  /** Instance ids: a letter, then letters, digits, dashes and underscores. */
  predicate IsSlug(s: string) {
    && s != "" && IsLetter(s[0])
    && forall k :: 0 <= k < |s| ==> IsLetter(s[k]) || IsDigit(s[k]) || s[k] == '_' || s[k] == '-'
  }

  /** Variable names: a letter or underscore, then letters, digits and underscores. */
  predicate IsVariableName(s: string) {
    && s != "" && !IsDigit(s[0])
    && forall k :: 0 <= k < |s| ==> IsLetter(s[k]) || IsDigit(s[k]) || s[k] == '_'
  }

  /**
   * A dash comes only from a byte that ends in 62: among ASCII characters, `>` and `~`, which no slug or name contains.
   */
  lemma {:induction false} NoSextet62(bytes: seq<Byte>)
    requires forall k :: 0 <= k < |bytes| ==> bytes[k] < 128 && bytes[k] % 64 != 62
    ensures 62 !in Sextets(bytes)
  {
    if |bytes| >= 3 {
      NoSextet62(bytes[3..]);
    }
  }

  lemma NoDash(s: string)
    requires IsSlug(s) || IsVariableName(s)
    ensures Ascii(s) && '-' !in Base64Url(Bytes(s))
  {
    NoSextet62(Bytes(s));
  }

  lemma DashSeparates(a: string, b: string, c: string, d: string)
    requires '-' !in a && '-' !in b && '-' !in c && '-' !in d
    requires a + ['-'] + b == c + ['-'] + d
    ensures a == c && b == d
  {
    SplitPrefix(a, b, '-');
    SplitPrefix(b, "", '-');
    SplitPrefix(c, d, '-');
    SplitPrefix(d, "", '-');
    assert ([a] + [b])[0] == ([c] + [d])[0] && ([a] + [b])[1] == ([c] + [d])[1];
  }

  /** Instance ids and variable names that are well formed never share a name in the store. */
  lemma SecretNameInjective(id: string, name: string, otherId: string, otherName: string)
    requires IsSlug(id) && IsSlug(otherId) && IsVariableName(name) && IsVariableName(otherName)
    ensures Ascii(id) && Ascii(name) && Ascii(otherId) && Ascii(otherName)
    ensures SecretName(id, name) == SecretName(otherId, otherName) ==> id == otherId && name == otherName
  {
    NoDash(id);
    NoDash(name);
    NoDash(otherId);
    NoDash(otherName);
    hide Base64Url, IsSlug, IsVariableName, Ascii, Bytes;
    if SecretName(id, name) == SecretName(otherId, otherName) {
      var a, b := Base64Url(Bytes(id)), Base64Url(Bytes(name));
      var c, d := Base64Url(Bytes(otherId)), Base64Url(Bytes(otherName));
      assert a + ['-'] + b == SecretName(id, name)[13..];
      assert c + ['-'] + d == SecretName(otherId, otherName)[13..];
      DashSeparates(a, b, c, d);
      Base64UrlInjective(Bytes(id), Bytes(otherId));
      Base64UrlInjective(Bytes(name), Bytes(otherName));
      SameBytes(id, otherId);
      SameBytes(name, otherName);
    }
  }

  lemma SameBytes(s: string, t: string)
    requires Ascii(s) && Ascii(t) && Bytes(s) == Bytes(t)
    ensures s == t
  {
    forall k | 0 <= k < |s| ensures k < |t| && s[k] == t[k] {
      assert Bytes(s)[k] == Bytes(t)[k];
    }
    assert |s| == |Bytes(s)| == |Bytes(t)| == |t|;
  }

  lemma DashFromBytes(a: Byte, b: Byte, rest: seq<Byte>)
    ensures Sextets([a, b, 62] + rest) == Sextets([a, b]) + [62] + Sextets(rest)
  {
    assert ([a, b, 62] + rest)[3..] == rest;
  }

  lemma DashFromText(x: string, rest: string)
    requires Ascii(x) && Ascii(rest) && |x| == 2
    ensures Ascii(x + ">" + rest)
    ensures Base64Url(Bytes(x + ">" + rest)) == Base64Url(Bytes(x)) + "-" + Base64Url(Bytes(rest))
  {
    assert Letter(62) == '-';
    hide Letter, Sextets;
    DashFromBytes(x[0] as int, x[1] as int, Bytes(rest));
    assert Bytes(x) == [x[0] as int, x[1] as int];
    assert Bytes(x + ">" + rest) == [x[0] as int, x[1] as int, 62] + Bytes(rest);
  }

  /** Without the rule on the characters two keys can share a name. */
  lemma SecretNamesCollide(x: string, y: string, z: string)
    requires Ascii(x) && Ascii(y) && Ascii(z) && |x| == |y| == 2
    ensures Ascii(x + ">" + y) && Ascii(y + ">" + z)
    ensures SecretName(x + ">" + y, z) == SecretName(x, y + ">" + z)
  {
    hide Base64Url, Bytes;
    DashFromText(x, y);
    DashFromText(y, z);
  }
}
