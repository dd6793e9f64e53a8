/** What the reader makes of printed conditions. */
module WhenRoundTrip {
  import opened Optional
  import opened Text
  import opened WhenSyntax

  /** All identifiers are words the reader knows. */
  predicate WordLike(node: Node) {
    match node
    case Identifier(name) => IsWord(name)
    case Not(inner) => WordLike(inner)
    case And(left, right) => WordLike(left) && WordLike(right)
    case Or(left, right) => WordLike(left) && WordLike(right)
  }

  /** The parentheses around the innermost identifier of the printed text. */
  function Depth(node: Node): nat {
    match node
    case Identifier(_) => 0
    case Not(inner) => 1 + Depth(inner)
    case And(left, right) => 1 + if Depth(left) < Depth(right) then Depth(right) else Depth(left)
    case Or(left, right) => 1 + if Depth(left) < Depth(right) then Depth(right) else Depth(left)
  }

  function Size(node: Node): nat {
    match node
    case Identifier(_) => 0
    case Not(inner) => 1 + Size(inner)
    case And(left, right) => 1 + Size(left) + Size(right)
    case Or(left, right) => 1 + Size(left) + Size(right)
  }

  function TokensOf(node: Node): (tokens: seq<Token>)
    ensures tokens != []
  {
    match node
    case Identifier(name) => [Word(name)]
    case Not(inner) => [NotSign, LeftParen] + TokensOf(inner) + [RightParen]
    case And(left, right) => [LeftParen] + TokensOf(left) + [AndSign] + TokensOf(right) + [RightParen]
    case Or(left, right) => [LeftParen] + TokensOf(left) + [OrSign] + TokensOf(right) + [RightParen]
  }

  // ---- from text to tokens ----

  /** A text whose tokens are known, put in front of another. */
  ghost predicate ReadsAs(s: string, tokens: seq<Token>, rest: string) {
    Tokenize(s + rest) == Prefixed(tokens, Tokenize(rest))
  }

  lemma LexemeReads(s: string, rest: string)
    requires s != "" && FirstLexeme(s + rest).Lexeme? && FirstLexeme(s + rest).length == |s|
    ensures var token := FirstLexeme(s + rest).token; ReadsAs(s, if token.Some? then [token.value] else [], rest)
  {
    assert (s + rest)[|s|..] == rest;
  }

  lemma ReadsInTurn(a: string, aTokens: seq<Token>, b: string, bTokens: seq<Token>, rest: string)
    requires ReadsAs(a, aTokens, b + rest) && ReadsAs(b, bTokens, rest)
    ensures ReadsAs(a + b, aTokens + bTokens, rest)
  {
    hide Tokenize;
    assert a + b + rest == a + (b + rest);
    PrefixedTwice(aTokens, bTokens, Tokenize(rest));
  }

  lemma SignReads(sign: string, tokens: seq<Token>, rest: string)
    requires || (sign == "(" && tokens == [LeftParen]) || (sign == ")" && tokens == [RightParen])
             || (sign == "!" && tokens == [NotSign]) || (sign == "&&" && tokens == [AndSign])
             || (sign == "||" && tokens == [OrSign]) || (sign == " " && tokens == [])
    ensures ReadsAs(sign, tokens, rest)
  {
    assert |sign| == 2 ==> (sign + rest)[..2] == sign;
    LexemeReads(sign, rest);
  }

  lemma SpacedSignReads(sign: string, token: Token, rest: string)
    requires (sign == "&&" && token == AndSign) || (sign == "||" && token == OrSign)
    ensures ReadsAs(" " + sign + " ", [token], rest)
  {
    hide Tokenize;
    PrefixedTwice([token], [token], None);
    SignReads(" ", [], rest);
    SignReads(sign, [token], " " + rest);
    ReadsInTurn(sign, [token], " ", [], rest);
    SignReads(" ", [], (sign + " ") + rest);
    ReadsInTurn(" ", [], sign + " ", [token], rest);
    assert " " + sign + " " == " " + (sign + " ");
  }

  lemma {:induction false} WordEnds(name: string, rest: string)
    requires forall k :: 0 <= k < |name| ==> IsWordPart(name[k])
    requires rest != "" ==> !IsWordPart(rest[0])
    ensures WordLength(name + rest) == |name|
  {
    if name == "" {
      assert name + rest == rest;
    } else {
      WordEnds(name[1..], rest);
      assert (name + rest)[1..] == name[1..] + rest;
    }
  }

  lemma WordReads(name: string, rest: string)
    requires IsWord(name) && (rest != "" ==> !IsWordPart(rest[0]))
    ensures ReadsAs(name, [Word(name)], rest)
  {
    WordEnds(name, rest);
    assert (name + rest)[..|name|] == name;
    assert (name + rest)[0] == name[0];
    assert !IsSpace(name[0]) && name[0] != '&' && name[0] != '|';
    LexemeReads(name, rest);
  }

  lemma {:induction false} PrintedReads(node: Node, rest: string)
    requires WordLike(node) && (rest != "" ==> !IsWordPart(rest[0]))
    ensures ReadsAs(EncodeWhenAst(node), TokensOf(node), rest)
    decreases Size(node), 0
  {
    hide Tokenize, ReadsAs;
    match node
    case Identifier(name) =>
      WordReads(name, rest);
    case Not(inner) =>
      NegationReads(inner, rest);
      assert EncodeWhenAst(node) == "!" + "(" + (EncodeWhenAst(inner) + ")");
      assert TokensOf(node) == [NotSign] + [LeftParen] + (TokensOf(inner) + [RightParen]);
    case And(left, right) =>
      PairReads(left, right, "&&", AndSign, rest);
      assert EncodeWhenAst(node) == "(" + EncodeWhenAst(left) + (" " + "&&" + " ") + EncodeWhenAst(right) + ")";
    case Or(left, right) =>
      PairReads(left, right, "||", OrSign, rest);
      assert EncodeWhenAst(node) == "(" + EncodeWhenAst(left) + (" " + "||" + " ") + EncodeWhenAst(right) + ")";
  }

  lemma {:induction false} NegationReads(inner: Node, rest: string)
    requires WordLike(inner) && (rest != "" ==> !IsWordPart(rest[0]))
    ensures ReadsAs("!" + "(" + (EncodeWhenAst(inner) + ")"),
                    [NotSign] + [LeftParen] + (TokensOf(inner) + [RightParen]), rest)
    decreases Size(inner), 1
  {
    hide Tokenize, ReadsAs, EncodeWhenAst, TokensOf;
    var text := EncodeWhenAst(inner);
    SignReads(")", [RightParen], rest);
    PrintedReads(inner, ")" + rest);
    ReadsInTurn(text, TokensOf(inner), ")", [RightParen], rest);
    SignReads("(", [LeftParen], text + ")" + rest);
    SignReads("!", [NotSign], "(" + (text + ")" + rest));
    ReadsInTurn("!", [NotSign], "(", [LeftParen], text + ")" + rest);
    ReadsInTurn("!" + "(", [NotSign] + [LeftParen], text + ")", TokensOf(inner) + [RightParen], rest);
  }

  lemma {:induction false} PairReads(left: Node, right: Node, sign: string, token: Token, rest: string)
    requires WordLike(left) && WordLike(right) && (rest != "" ==> !IsWordPart(rest[0]))
    requires (sign == "&&" && token == AndSign) || (sign == "||" && token == OrSign)
    ensures ReadsAs("(" + EncodeWhenAst(left) + (" " + sign + " ") + EncodeWhenAst(right) + ")",
                    [LeftParen] + TokensOf(left) + [token] + TokensOf(right) + [RightParen], rest)
    decreases Size(left) + Size(right), 1
  {
    hide Tokenize, ReadsAs, EncodeWhenAst, TokensOf;
    var a, b, s := EncodeWhenAst(left), EncodeWhenAst(right), " " + sign + " ";
    var at, bt := TokensOf(left), TokensOf(right);
    SignReads(")", [RightParen], rest);
    PrintedReads(right, ")" + rest);
    ReadsInTurn(b, bt, ")", [RightParen], rest);
    var tail1 := b + ")";
    SpacedSignReads(sign, token, tail1 + rest);
    ReadsInTurn(s, [token], tail1, bt + [RightParen], rest);
    var tail2 := s + tail1;
    PrintedReads(left, tail2 + rest);
    ReadsInTurn(a, at, tail2, [token] + (bt + [RightParen]), rest);
    var tail3 := a + tail2;
    SignReads("(", [LeftParen], tail3 + rest);
    ReadsInTurn("(", [LeftParen], tail3, at + ([token] + (bt + [RightParen])), rest);
    assert "(" + a + s + b + ")" == "(" + tail3;
    assert [LeftParen] + at + [token] + bt + [RightParen] == [LeftParen] + (at + ([token] + (bt + [RightParen])));
  }

  // ---- from tokens to trees ----

  /** The tokens found at a place. */
  ghost predicate Has(tokens: seq<Token>, i: nat, part: seq<Token>) {
    i + |part| <= |tokens| && tokens[i..i + |part|] == part
  }

  lemma HasParts(tokens: seq<Token>, i: nat, a: seq<Token>, b: seq<Token>)
    requires Has(tokens, i, a + b)
    ensures Has(tokens, i, a) && Has(tokens, i + |a|, b)
  {
    assert tokens[i..i + |a|] == (a + b)[..|a|];
    assert tokens[i + |a|..i + |a| + |b|] == (a + b)[|a|..];
  }

  lemma HasFirst(tokens: seq<Token>, i: nat, part: seq<Token>)
    requires Has(tokens, i, part) && part != []
    ensures At(tokens, i, part[0])
  {
    assert tokens[i] == tokens[i..i + |part|][0];
  }

  lemma HasBothSides(tokens: seq<Token>, i: nat, a: seq<Token>, sign: Token, b: seq<Token>)
    requires Has(tokens, i, a + [sign] + b + [RightParen])
    ensures Has(tokens, i, a) && Has(tokens, i + |a| + 1, b)
    ensures At(tokens, i + |a|, sign) && At(tokens, i + |a| + 1 + |b|, RightParen)
  {
    assert a + [sign] + b + [RightParen] == a + ([sign] + (b + [RightParen]));
    HasParts(tokens, i, a, [sign] + (b + [RightParen]));
    HasParts(tokens, i + |a|, [sign], b + [RightParen]);
    HasParts(tokens, i + |a| + 1, b, [RightParen]);
    var end := i + |a| + 1 + |b|;
    assert tokens[i + |a|] == tokens[i + |a|..i + |a| + 1][0];
    assert tokens[end] == tokens[end..end + 1][0];
  }

  /** What reading a printed tree has to give: the tree, unless its parentheses go deeper than the limit. */
  function Expected(node: Node, i: nat, depth: nat, limit: nat): Parsed {
    if depth + Depth(node) <= limit then Ok(node, i + |TokensOf(node)|) else Fail
  }

  lemma UnaryWithoutSign(tokens: seq<Token>, i: nat, depth: nat, limit: nat)
    requires i <= |tokens| && !At(tokens, i, NotSign)
    ensures Unary(tokens, i, depth, limit) == Primary(tokens, i, depth, limit)
  {
    assert NotSigns(tokens, i) == 0;
  }

  lemma UnaryWithSign(tokens: seq<Token>, i: nat, depth: nat, limit: nat)
    requires At(tokens, i, NotSign) && !At(tokens, i + 1, NotSign)
    ensures var r := Primary(tokens, i + 1, depth, limit);
      Unary(tokens, i, depth, limit) == if r.Ok? && limit > 0 then Ok(Not(r.node), r.next) else Fail
  {
    assert NotSigns(tokens, i) == 1;
    var r := Primary(tokens, i + 1, depth, limit);
    if r.Ok? {
      assert Negated(r.node, 1) == Not(r.node);
    }
  }

  lemma PrimaryInParentheses(tokens: seq<Token>, i: nat, depth: nat, limit: nat)
    requires At(tokens, i, LeftParen)
    ensures Primary(tokens, i, depth, limit) ==
      if depth > limit then Fail
      else
        match Alternatives(tokens, i + 1, depth + 1, limit)
        case Fail => Fail
        case Ok(node, next) => if At(tokens, next, RightParen) then Ok(node, next + 1) else Fail
  {
  }

  lemma PrimaryOfWord(tokens: seq<Token>, i: nat, name: string, depth: nat, limit: nat)
    requires At(tokens, i, Word(name))
    ensures Primary(tokens, i, depth, limit) == if depth > limit then Fail else Ok(Identifier(name), i + 1)
  {
  }

  ghost predicate Ends(tokens: seq<Token>, i: nat) {
    !At(tokens, i, AndSign) && !At(tokens, i, OrSign)
  }

  lemma AlternativesOfOne(tokens: seq<Token>, i: nat, depth: nat, limit: nat)
    requires i <= |tokens|
    requires var r := Unary(tokens, i, depth, limit); r.Ok? ==> Ends(tokens, r.next)
    ensures Alternatives(tokens, i, depth, limit) == Unary(tokens, i, depth, limit)
  {
    hide Unary;
    assert Conjuncts(tokens, i, depth, limit) == Unary(tokens, i, depth, limit);
  }

  /** Two operands and the sign between them. */
  lemma AlternativesOfTwo(tokens: seq<Token>, i: nat, sign: Token, depth: nat, limit: nat)
    requires i <= |tokens| && (sign == AndSign || sign == OrSign)
    requires var l := Unary(tokens, i, depth, limit);
      l.Ok? ==> At(tokens, l.next, sign)
                && var r := Unary(tokens, l.next + 1, depth, limit); r.Ok? ==> Ends(tokens, r.next)
    ensures Alternatives(tokens, i, depth, limit) ==
      match Unary(tokens, i, depth, limit)
      case Fail => Fail
      case Ok(left, next) =>
        match Unary(tokens, next + 1, depth, limit)
        case Fail => Fail
        case Ok(right, end) => Ok(if sign == AndSign then And(left, right) else Or(left, right), end)
  {
    hide Unary;
    var l := Unary(tokens, i, depth, limit);
    if l.Ok? {
      var r := Unary(tokens, l.next + 1, depth, limit);
      if sign == AndSign {
        assert MoreConjuncts(tokens, l.node, l.next, depth, limit) ==
               if r.Ok? then MoreConjuncts(tokens, And(l.node, r.node), r.next, depth, limit) else Fail;
      } else {
        assert Conjuncts(tokens, i, depth, limit) == l;
        assert Conjuncts(tokens, l.next + 1, depth, limit) == r;
        assert MoreAlternatives(tokens, l.node, l.next, depth, limit) ==
               if r.Ok? then MoreAlternatives(tokens, Or(l.node, r.node), r.next, depth, limit) else Fail;
      }
    }
  }

  lemma {:induction false} UnaryReads(node: Node, tokens: seq<Token>, i: nat, depth: nat, limit: nat)
    requires Has(tokens, i, TokensOf(node))
    ensures Unary(tokens, i, depth, limit) == Expected(node, i, depth, limit)
    decreases Size(node), 0
  {
    hide Unary, Alternatives, Primary, Has;
    match node
    case Identifier(name) =>
      HasFirst(tokens, i, TokensOf(node));
      UnaryWithoutSign(tokens, i, depth, limit);
      PrimaryOfWord(tokens, i, name, depth, limit);
    case Not(inner) =>
      UnaryReadsNot(inner, tokens, i, depth, limit);
    case And(left, right) =>
      UnaryReadsPair(left, right, AndSign, tokens, i, depth, limit);
    case Or(left, right) =>
      UnaryReadsPair(left, right, OrSign, tokens, i, depth, limit);
  }

  lemma {:induction false} UnaryReadsNot(inner: Node, tokens: seq<Token>, i: nat, depth: nat, limit: nat)
    requires Has(tokens, i, [NotSign, LeftParen] + TokensOf(inner) + [RightParen])
    ensures Unary(tokens, i, depth, limit) == Expected(Not(inner), i, depth, limit)
    decreases Size(inner), 2
  {
    hide Unary, Alternatives, Primary, Has;
    var rest := TokensOf(inner) + [RightParen];
    assert [NotSign, LeftParen] + TokensOf(inner) + [RightParen] == [NotSign] + ([LeftParen] + rest);
    HasParts(tokens, i, [NotSign], [LeftParen] + rest);
    HasParts(tokens, i + 1, [LeftParen], rest);
    HasFirst(tokens, i, [NotSign]);
    HasFirst(tokens, i + 1, [LeftParen]);
    UnaryWithSign(tokens, i, depth, limit);
    PrimaryInParentheses(tokens, i + 1, depth, limit);
    InParentheses(inner, tokens, i + 2, depth + 1, limit);
  }

  lemma {:induction false} UnaryReadsPair(left: Node, right: Node, sign: Token, tokens: seq<Token>, i: nat, depth: nat,
      limit: nat)
    requires Has(tokens, i, [LeftParen] + TokensOf(left) + [sign] + TokensOf(right) + [RightParen])
    requires sign == AndSign || sign == OrSign
    ensures Unary(tokens, i, depth, limit) ==
      Expected(if sign == AndSign then And(left, right) else Or(left, right), i, depth, limit)
    decreases Size(left) + Size(right), 2
  {
    hide Unary, Alternatives, Primary, Has;
    var rest := TokensOf(left) + [sign] + TokensOf(right) + [RightParen];
    assert [LeftParen] + TokensOf(left) + [sign] + TokensOf(right) + [RightParen] == [LeftParen] + rest;
    HasParts(tokens, i, [LeftParen], rest);
    HasFirst(tokens, i, [LeftParen]);
    UnaryWithoutSign(tokens, i, depth, limit);
    PrimaryInParentheses(tokens, i, depth, limit);
    BothSides(left, right, sign, tokens, i + 1, depth + 1, limit);
  }

  /** A tree before a closing parenthesis. */
  lemma {:induction false} InParentheses(node: Node, tokens: seq<Token>, i: nat, depth: nat, limit: nat)
    requires Has(tokens, i, TokensOf(node) + [RightParen])
    ensures Alternatives(tokens, i, depth, limit) == Expected(node, i, depth, limit)
    ensures At(tokens, i + |TokensOf(node)|, RightParen)
    decreases Size(node), 1
  {
    hide TokensOf, Unary, Alternatives;
    HasParts(tokens, i, TokensOf(node), [RightParen]);
    assert tokens[i + |TokensOf(node)|] == tokens[i + |TokensOf(node)|..i + |TokensOf(node)| + 1][0];
    UnaryReads(node, tokens, i, depth, limit);
    AlternativesOfOne(tokens, i, depth, limit);
  }

  /** Two trees with a sign between them, before a closing parenthesis. */
  lemma {:induction false} BothSides(left: Node, right: Node, sign: Token, tokens: seq<Token>, i: nat, depth: nat,
      limit: nat)
    requires Has(tokens, i, TokensOf(left) + [sign] + TokensOf(right) + [RightParen])
    requires sign == AndSign || sign == OrSign
    ensures var node := if sign == AndSign then And(left, right) else Or(left, right);
      var end := i + |TokensOf(left)| + 1 + |TokensOf(right)|;
      && At(tokens, end, RightParen)
      && Alternatives(tokens, i, depth, limit) == if depth + Depth(left) <= limit && depth + Depth(right) <= limit
        then Ok(node, end) else Fail
    decreases Size(left) + Size(right), 1
  {
    hide TokensOf, Unary, Alternatives, Has;
    HasBothSides(tokens, i, TokensOf(left), sign, TokensOf(right));
    UnaryReads(left, tokens, i, depth, limit);
    UnaryReads(right, tokens, i + |TokensOf(left)| + 1, depth, limit);
    AlternativesOfTwo(tokens, i, sign, depth, limit);
  }

  // ---- round trip ----

  /** Reading a printed tree gives the tree back just when its parentheses stay within the limit. */
  lemma ParsePrinted(node: Node, limit: nat)
    requires WordLike(node)
    ensures Parse(EncodeWhenAst(node), limit) == if Depth(node) <= limit then Some(node) else None
  {
    var text, tokens := EncodeWhenAst(node), TokensOf(node);
    PrintedReads(node, "");
    assert text + "" == text && tokens + [] == tokens;
    assert Tokenize(text) == Some(tokens);
    hide TokensOf, Tokenize, EncodeWhenAst, Unary, Alternatives;
    assert tokens[0..|tokens|] == tokens;
    UnaryReads(node, tokens, 0, 0, limit);
    AlternativesOfOne(tokens, 0, 0, limit);
  }

  /** What the server prints is read back by its own reader, unless it nests more than 64 parentheses. */
  lemma PrintedConditionsReadBack(node: Node)
    requires WordLike(node)
    ensures Parse(EncodeWhenAst(node), MAX_WHEN_EXPRESSION_DEPTH) == Some(node) <==>
      Depth(node) <= MAX_WHEN_EXPRESSION_DEPTH
  {
    ParsePrinted(node, MAX_WHEN_EXPRESSION_DEPTH);
  }

  /** No two trees are printed alike, however deep. */
  lemma PrintingIsUnambiguous(a: Node, b: Node)
    requires WordLike(a) && WordLike(b) && EncodeWhenAst(a) == EncodeWhenAst(b)
    ensures a == b
  {
    ParsePrinted(a, Depth(a) + Depth(b));
    ParsePrinted(b, Depth(a) + Depth(b));
  }

  // ---- what the reader gives ----

  ghost predicate WordTokens(tokens: seq<Token>) {
    forall k :: 0 <= k < |tokens| && tokens[k].Word? ==> IsWord(tokens[k].value)
  }

  lemma {:induction false} TokenizedWords(s: string)
    requires Tokenize(s).Some?
    ensures WordTokens(Tokenize(s).value)
    decreases |s|
  {
    if s != "" {
      var lexeme := FirstLexeme(s);
      TokenizedWords(s[lexeme.length..]);
    }
  }

  lemma {:induction false} NegatedWords(node: Node, count: nat)
    requires WordLike(node)
    ensures WordLike(Negated(node, count))
    decreases count
  {
    if count > 0 {
      NegatedWords(Not(node), count - 1);
    }
  }

  ghost predicate GivesWords(r: Parsed) {
    r.Ok? ==> WordLike(r.node)
  }

  lemma {:induction false} PrimaryGivesWords(tokens: seq<Token>, i: nat, depth: nat, limit: nat)
    requires i <= |tokens| && WordTokens(tokens)
    ensures GivesWords(Primary(tokens, i, depth, limit))
    decreases |tokens| - i, 0
  {
    if i < |tokens| && tokens[i] == LeftParen {
      AlternativesGiveWords(tokens, i + 1, depth + 1, limit);
    }
  }

  lemma {:induction false} UnaryGivesWords(tokens: seq<Token>, i: nat, depth: nat, limit: nat)
    requires i <= |tokens| && WordTokens(tokens)
    ensures GivesWords(Unary(tokens, i, depth, limit))
    decreases |tokens| - i, 1
  {
    var count := NotSigns(tokens, i);
    PrimaryGivesWords(tokens, i + count, depth, limit);
    var r := Primary(tokens, i + count, depth, limit);
    if r.Ok? {
      NegatedWords(r.node, count);
    }
  }

  lemma {:induction false} MoreConjunctsGiveWords(tokens: seq<Token>, left: Node, i: nat, depth: nat, limit: nat)
    requires i <= |tokens| && WordTokens(tokens) && WordLike(left)
    ensures GivesWords(MoreConjuncts(tokens, left, i, depth, limit))
    decreases |tokens| - i, 2
  {
    if At(tokens, i, AndSign) {
      UnaryGivesWords(tokens, i + 1, depth, limit);
      var r := Unary(tokens, i + 1, depth, limit);
      if r.Ok? {
        MoreConjunctsGiveWords(tokens, And(left, r.node), r.next, depth, limit);
      }
    }
  }

  lemma {:induction false} ConjunctsGiveWords(tokens: seq<Token>, i: nat, depth: nat, limit: nat)
    requires i <= |tokens| && WordTokens(tokens)
    ensures GivesWords(Conjuncts(tokens, i, depth, limit))
    decreases |tokens| - i, 3
  {
    UnaryGivesWords(tokens, i, depth, limit);
    var r := Unary(tokens, i, depth, limit);
    if r.Ok? {
      MoreConjunctsGiveWords(tokens, r.node, r.next, depth, limit);
    }
  }

  lemma {:induction false} MoreAlternativesGiveWords(tokens: seq<Token>, left: Node, i: nat, depth: nat, limit: nat)
    requires i <= |tokens| && WordTokens(tokens) && WordLike(left)
    ensures GivesWords(MoreAlternatives(tokens, left, i, depth, limit))
    decreases |tokens| - i, 4
  {
    if At(tokens, i, OrSign) {
      ConjunctsGiveWords(tokens, i + 1, depth, limit);
      var r := Conjuncts(tokens, i + 1, depth, limit);
      if r.Ok? {
        MoreAlternativesGiveWords(tokens, Or(left, r.node), r.next, depth, limit);
      }
    }
  }

  lemma {:induction false} AlternativesGiveWords(tokens: seq<Token>, i: nat, depth: nat, limit: nat)
    requires i <= |tokens| && WordTokens(tokens)
    ensures GivesWords(Alternatives(tokens, i, depth, limit))
    decreases |tokens| - i, 5
  {
    ConjunctsGiveWords(tokens, i, depth, limit);
    var r := Conjuncts(tokens, i, depth, limit);
    if r.Ok? {
      MoreAlternativesGiveWords(tokens, r.node, r.next, depth, limit);
    }
  }

  /**
   * A condition that was read can be printed and read again with the same meaning, just when the printed text nests
   * within the limit.
   */
  lemma ReadConditionsSurvivePrinting(expression: string)
    requires Parse(expression, MAX_WHEN_EXPRESSION_DEPTH).Some?
    ensures var node := Parse(expression, MAX_WHEN_EXPRESSION_DEPTH).value;
      Parse(EncodeWhenAst(node), MAX_WHEN_EXPRESSION_DEPTH) == if Depth(node) <= MAX_WHEN_EXPRESSION_DEPTH
        then Some(node) else None
  {
    TokenizedWords(expression);
    AlternativesGiveWords(Tokenize(expression).value, 0, 0, MAX_WHEN_EXPRESSION_DEPTH);
    ParsePrinted(Parse(expression, MAX_WHEN_EXPRESSION_DEPTH).value, MAX_WHEN_EXPRESSION_DEPTH);
  }

  // ---- a condition that is read but does not survive printing ----

  /** A chain of `a`s with n signs between them. */
  function ChainText(n: nat): string {
    if n == 0 then "a" else ChainText(n - 1) + "&&" + "a"
  }

  function ChainTokens(n: nat): seq<Token> {
    if n == 0 then [Word("a")] else ChainTokens(n - 1) + [AndSign] + [Word("a")]
  }

  function ChainNode(n: nat): Node {
    if n == 0 then Identifier("a") else And(ChainNode(n - 1), Identifier("a"))
  }

  lemma {:induction false} ChainFacts(n: nat)
    ensures |ChainText(n)| == 3 * n + 1 && |ChainTokens(n)| == 2 * n + 1 && Depth(ChainNode(n)) == n
    ensures ChainTokens(n)[0] == Word("a")
  {
    if n > 0 {
      ChainFacts(n - 1);
    }
  }

  lemma {:induction false} ChainAt(n: nat, k: nat)
    requires k < n
    ensures At(ChainTokens(n), 2 * k + 1, AndSign) && At(ChainTokens(n), 2 * k + 2, Word("a"))
  {
    ChainFacts(n - 1);
    if k < n - 1 {
      ChainAt(n - 1, k);
    }
  }

  lemma {:induction false} ChainReads(n: nat, rest: string)
    requires rest != "" ==> !IsWordPart(rest[0])
    ensures ReadsAs(ChainText(n), ChainTokens(n), rest)
  {
    hide Tokenize, ReadsAs;
    WordReads("a", rest);
    if n > 0 {
      SignReads("&&", [AndSign], "a" + rest);
      ChainReads(n - 1, "&&" + ("a" + rest));
      ReadsInTurn(ChainText(n - 1), ChainTokens(n - 1), "&&", [AndSign], "a" + rest);
      ReadsInTurn(ChainText(n - 1) + "&&", ChainTokens(n - 1) + [AndSign], "a", [Word("a")], rest);
    }
  }

  lemma {:induction false} ChainConjuncts(n: nat, k: nat, limit: nat)
    requires k <= n
    ensures |ChainTokens(n)| == 2 * n + 1
    ensures MoreConjuncts(ChainTokens(n), ChainNode(k), 2 * k + 1, 0, limit) == Ok(ChainNode(n), 2 * n + 1)
    decreases n - k
  {
    ChainFacts(n);
    var tokens := ChainTokens(n);
    if k < n {
      hide Unary, Primary, ChainTokens;
      ChainConjuncts(n, k + 1, limit);
      ChainAt(n, k);
      UnaryWithoutSign(tokens, 2 * k + 2, 0, limit);
      PrimaryOfWord(tokens, 2 * k + 2, "a", 0, limit);
    }
  }

  /** A chain of any length is read without nesting, but printed with one more parenthesis for each sign. */
  lemma ChainsNestWhenPrinted(n: nat)
    ensures Parse(ChainText(n), MAX_WHEN_EXPRESSION_DEPTH) == Some(ChainNode(n))
    ensures n > MAX_WHEN_EXPRESSION_DEPTH ==> Parse(EncodeWhenAst(ChainNode(n)), MAX_WHEN_EXPRESSION_DEPTH) == None
  {
    var tokens := ChainTokens(n);
    ChainFacts(n);
    ChainReads(n, "");
    assert ChainText(n) + "" == ChainText(n) && tokens + [] == tokens;
    assert Tokenize(ChainText(n)) == Some(tokens);
    ChainConjuncts(n, 0, MAX_WHEN_EXPRESSION_DEPTH);
    UnaryWithoutSign(tokens, 0, 0, MAX_WHEN_EXPRESSION_DEPTH);
    PrimaryOfWord(tokens, 0, "a", 0, MAX_WHEN_EXPRESSION_DEPTH);
    assert Conjuncts(tokens, 0, 0, MAX_WHEN_EXPRESSION_DEPTH) == Ok(ChainNode(n), |tokens|);
    assert Alternatives(tokens, 0, 0, MAX_WHEN_EXPRESSION_DEPTH) == Ok(ChainNode(n), |tokens|);
    ReadConditionsSurvivePrinting(ChainText(n));
  }
}
