/** The groups of six bits that base64 (RFC 4648) writes as characters. */
module Base64 {
  type Byte = b: int | 0 <= b < 256

  type Sextet = n: int | 0 <= n < 64

  /** Six bits at a time; a last group of one or two bytes is filled up with zero bits. */
  function Sextets(bytes: seq<Byte>): seq<Sextet> {
    if bytes == [] then []
    else if |bytes| == 1 then [bytes[0] / 4, bytes[0] % 4 * 16]
    else if |bytes| == 2 then [bytes[0] / 4, bytes[0] % 4 * 16 + bytes[1] / 16, bytes[1] % 16 * 4]
    else
      [bytes[0] / 4, bytes[0] % 4 * 16 + bytes[1] / 16, bytes[1] % 16 * 4 + bytes[2] / 64, bytes[2] % 64]
      + Sextets(bytes[3..])
  }

  lemma {:induction false} SextetsLength(bytes: seq<Byte>)
    ensures |Sextets(bytes)| == |bytes| / 3 * 4 + (if |bytes| % 3 == 0 then 0 else |bytes| % 3 + 1)
  {
    if |bytes| >= 3 {
      SextetsLength(bytes[3..]);
    }
  }

  lemma GroupInjective(a: seq<Byte>, b: seq<Byte>)
    requires |a| == |b| == 3
    requires a[0] / 4 == b[0] / 4 && a[0] % 4 * 16 + a[1] / 16 == b[0] % 4 * 16 + b[1] / 16
    requires a[1] % 16 * 4 + a[2] / 64 == b[1] % 16 * 4 + b[2] / 64 && a[2] % 64 == b[2] % 64
    ensures a == b
  {
    assert a[0] % 4 == b[0] % 4 && a[1] / 16 == b[1] / 16;
    assert a[1] % 16 == b[1] % 16 && a[2] / 64 == b[2] / 64;
  }

  lemma {:induction false} SextetsInjective(a: seq<Byte>, b: seq<Byte>)
    requires Sextets(a) == Sextets(b)
    ensures a == b
    decreases |a|
  {
    SextetsLength(a);
    SextetsLength(b);
    assert |a| == |b|;
    var s, t := Sextets(a), Sextets(b);
    if |a| >= 3 {
      assert s[0] == t[0] && s[1] == t[1] && s[2] == t[2] && s[3] == t[3];
      assert Sextets(a[3..]) == s[4..] && Sextets(b[3..]) == t[4..];
      SextetsInjective(a[3..], b[3..]);
      GroupInjective(a[..3], b[..3]);
      assert a == a[..3] + a[3..] && b == b[..3] + b[3..];
    } else if |a| == 2 {
      assert s[0] == t[0] && s[1] == t[1] && s[2] == t[2];
      GroupInjective(a + [0], b + [0]);
      assert a == (a + [0])[..2] && b == (b + [0])[..2];
    } else if |a| == 1 {
      assert s[0] == t[0] && s[1] == t[1];
      GroupInjective(a + [0, 0], b + [0, 0]);
      assert a == (a + [0, 0])[..1] && b == (b + [0, 0])[..1];
    }
  }

  function FirstByte(a: int, b: int): (r: int)
    requires 0 <= a < 64 && 0 <= b < 64
    ensures 0 <= r < 256
  {
    a * 4 + b / 16
  }

  function SecondByte(b: int, c: int): (r: int)
    requires 0 <= b < 64 && 0 <= c < 64
    ensures 0 <= r < 256
  {
    b % 16 * 16 + c / 4
  }

  function ThirdByte(c: int, d: int): (r: int)
    requires 0 <= c < 64 && 0 <= d < 64
    ensures 0 <= r < 256
  {
    c % 4 * 64 + d
  }

  function ThreeBytes(a: Sextet, b: Sextet, c: Sextet, d: Sextet): seq<Byte> {
    [FirstByte(a, b), SecondByte(b, c), ThirdByte(c, d)]
  }

  /** The bytes of a list of sextets; what does not make up a byte at its end is dropped. */
  function FromSextets(sextets: seq<Sextet>): seq<Byte> {
    if |sextets| < 2 then []
    else if |sextets| == 2 then [FirstByte(sextets[0], sextets[1])]
    else if |sextets| == 3 then [FirstByte(sextets[0], sextets[1]), SecondByte(sextets[1], sextets[2])]
    else ThreeBytes(sextets[0], sextets[1], sextets[2], sextets[3]) + FromSextets(sextets[4..])
  }

  /** The bits that fill up the last group are zero. */
  predicate LeftoverIsZero(sextets: seq<Sextet>) {
    && (|sextets| % 4 == 2 ==> sextets[|sextets| - 1] % 16 == 0)
    && (|sextets| % 4 == 3 ==> sextets[|sextets| - 1] % 4 == 0)
  }

  lemma {:induction false} SextetsLeaveZero(bytes: seq<Byte>)
    ensures LeftoverIsZero(Sextets(bytes))
  {
    if |bytes| >= 3 {
      SextetsLeaveZero(bytes[3..]);
      var rest := Sextets(bytes[3..]);
      assert Sextets(bytes)[4..] == rest;
    }
  }

  lemma {:induction false} FromSextetsLength(sextets: seq<Sextet>)
    requires |sextets| % 4 != 1
    ensures |FromSextets(sextets)| == |sextets| / 4 * 3 + (if |sextets| % 4 == 0 then 0 else |sextets| % 4 - 1)
  {
    if |sextets| >= 4 {
      FromSextetsLength(sextets[4..]);
    }
  }

  lemma GroupFromSextets(a: Sextet, b: Sextet, c: Sextet, d: Sextet)
    ensures var first, second, third := FirstByte(a, b), SecondByte(b, c), ThirdByte(c, d);
      && first / 4 == a && first % 4 * 16 + second / 16 == b
      && second % 16 * 4 + third / 64 == c && third % 64 == d
  {
  }

  lemma SextetsOfGroup(first: Byte, second: Byte, third: Byte, rest: seq<Byte>)
    ensures Sextets([first, second, third] + rest) ==
      [first / 4, first % 4 * 16 + second / 16, second % 16 * 4 + third / 64, third % 64] + Sextets(rest)
  {
    assert ([first, second, third] + rest)[3..] == rest;
  }

  /** Without leftover bits the bytes have these sextets. */
  lemma {:induction false} SextetsOfFromSextets(sextets: seq<Sextet>)
    requires |sextets| % 4 != 1 && LeftoverIsZero(sextets)
    ensures Sextets(FromSextets(sextets)) == sextets
  {
    if |sextets| >= 4 {
      var a, b, c, d, rest := sextets[0], sextets[1], sextets[2], sextets[3], sextets[4..];
      SextetsOfFromSextets(rest);
      GroupFromSextets(a, b, c, d);
      hide Sextets, FirstByte, SecondByte, ThirdByte;
      SextetsOfGroup(FirstByte(a, b), SecondByte(b, c), ThirdByte(c, d), FromSextets(rest));
      assert sextets == [a, b, c, d] + rest;
    } else if |sextets| == 3 {
      GroupFromSextets(sextets[0], sextets[1], sextets[2], 0);
      hide FirstByte, SecondByte, ThirdByte;
      SextetsOfThree(sextets);
    } else if |sextets| == 2 {
      SextetsOfTwo(sextets);
    }
  }

  lemma SextetsOfThree(sextets: seq<Sextet>)
    requires |sextets| == 3 && LeftoverIsZero(sextets)
    ensures Sextets(FromSextets(sextets)) == sextets
  {
    GroupFromSextets(sextets[0], sextets[1], sextets[2], 0);
    var first, second := FirstByte(sextets[0], sextets[1]), SecondByte(sextets[1], sextets[2]);
    hide FirstByte, SecondByte;
    assert Sextets([first, second]) == [first / 4, first % 4 * 16 + second / 16, second % 16 * 4];
    assert second % 16 * 4 == sextets[2] by {
      LastOfThree(sextets[1], sextets[2]);
    }
  }

  lemma LastOfThree(b: Sextet, c: Sextet)
    requires c % 4 == 0
    ensures SecondByte(b, c) % 16 * 4 == c
  {
  }

  lemma SextetsOfTwo(sextets: seq<Sextet>)
    requires |sextets| == 2 && LeftoverIsZero(sextets)
    ensures Sextets(FromSextets(sextets)) == sextets
  {
    GroupFromSextets(sextets[0], sextets[1], 0, 0);
    var first := FirstByte(sextets[0], sextets[1]);
    FirstOfTwo(sextets[0], sextets[1]);
    hide FirstByte;
    assert Sextets([first]) == [first / 4, first % 4 * 16];
  }

  lemma FirstOfTwo(a: Sextet, b: Sextet)
    requires b % 16 == 0
    ensures FirstByte(a, b) % 4 * 16 == b
  {
  }
}
